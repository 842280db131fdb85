/**
 * The browser client's per-provider settings (frontend/src/hooks/useChatSettings.ts):
 * twelve settings slots, one per provider plus two for the Doubao image
 * and video models; which slot the selected provider and model read and
 * write; and the settings a chat request is built from, with the stop
 * sequences turned from one comma-separated string into a list.
 */
module ChatSettings {
  import opened Wrappers
  import opened Text

  // ---------------------------------------------------------------- values

  /** A setting's value as the settings panel stores it. */
  datatype Value = Text(s: string) | Number(n: real) | Flag(b: bool) | Texts(items: seq<string>)

  /** A settings object: field name to value; a field that is not there is `undefined`. */
  type Fields = map<string, Value>

  /** `s.split(',').map((s) => s.trim())`: every comma-separated piece, trimmed; empty pieces stay. */
  function SplitTrim(s: string): (r: seq<string>)
    ensures |r| == |SplitOn(s, ',')|
    ensures forall i :: 0 <= i < |r| ==> r[i] == Strip(SplitOn(s, ',')[i])
  {
    var pieces := SplitOn(s, ',');
    seq(|pieces|, i requires 0 <= i < |pieces| => Strip(pieces[i]))
  }

  /** Trimming twice trims nothing more. */
  lemma StripTwice(s: string)
    ensures Strip(Strip(s)) == Strip(s)
  {
    StripOfStripped(Strip(s));
  }

  /**
   * The pieces are the text between the commas, in order and trimmed, with
   * no comma in any of them: joining the untrimmed pieces with commas gives
   * the text back.
   */
  lemma SplitTrimPieces(s: string)
    ensures var raw := SplitOn(s, ','); var r := SplitTrim(s);
      Join(raw, ",") == s && |r| == |raw| &&
      forall i :: 0 <= i < |r| ==> r[i] == Strip(raw[i]) && Strip(r[i]) == r[i] && ',' !in r[i]
  {
    var raw := SplitOn(s, ',');
    var r := SplitTrim(s);
    assert [','] == ",";
    forall i | 0 <= i < |r|
      ensures Strip(r[i]) == r[i] && ',' !in r[i]
    {
      StripTwice(raw[i]);
      StripInside(raw[i], ',');
    }
  }

  /** Trimming keeps only characters of the text. */
  lemma StripInside(s: string, c: char)
    requires c !in s
    ensures c !in Strip(s)
  {
    var l := LStrip(s);
    assert l == s[|s| - |l|..];
    assert Strip(s) == l[..|Strip(s)|];
  }

  /** `parseStop`: no stop list for a missing or empty string, otherwise its trimmed comma-separated pieces. */
  function ParseStop(stop: Option<string>): (r: Option<seq<string>>)
    ensures r.None? <==> stop.None? || stop.value == ""
    ensures r.Some? ==> r.value == SplitTrim(stop.value)
  {
    if stop.None? || stop.value == "" then None else Some(SplitTrim(stop.value))
  }

  // ----------------------------------------------------------------- slots

  /** The twelve settings slots. */
  datatype Slot =
    | DeepSeek | Doubao | DoubaoSeedream | DoubaoSeedance | SiliconFlow | Cerebras
    | Groq | Grok | Nvidia | OpenRouter | Gemini | Mistral

  /** The twelve `useState` settings objects. */
  datatype Store = Store(
    deepseek: Fields, doubao: Fields, seedream: Fields, seedance: Fields,
    siliconflow: Fields, cerebras: Fields, groq: Fields, grok: Fields,
    nvidia: Fields, openrouter: Fields, gemini: Fields, mistral: Fields)

  /** The settings object of one slot. */
  function Get(store: Store, slot: Slot): Fields {
    match slot
    case DeepSeek => store.deepseek
    case Doubao => store.doubao
    case DoubaoSeedream => store.seedream
    case DoubaoSeedance => store.seedance
    case SiliconFlow => store.siliconflow
    case Cerebras => store.cerebras
    case Groq => store.groq
    case Grok => store.grok
    case Nvidia => store.nvidia
    case OpenRouter => store.openrouter
    case Gemini => store.gemini
    case Mistral => store.mistral
  }

  /** One slot's setter: the twelve `set...Settings` functions, by slot. */
  function Set(store: Store, slot: Slot, fields: Fields): Store {
    Store(
      if slot == DeepSeek then fields else store.deepseek,
      if slot == Doubao then fields else store.doubao,
      if slot == DoubaoSeedream then fields else store.seedream,
      if slot == DoubaoSeedance then fields else store.seedance,
      if slot == SiliconFlow then fields else store.siliconflow,
      if slot == Cerebras then fields else store.cerebras,
      if slot == Groq then fields else store.groq,
      if slot == Grok then fields else store.grok,
      if slot == Nvidia then fields else store.nvidia,
      if slot == OpenRouter then fields else store.openrouter,
      if slot == Gemini then fields else store.gemini,
      if slot == Mistral then fields else store.mistral)
  }

  /** After a slot's setter, that slot holds the new object and every other slot is as it was. */
  lemma GetAfterSet(store: Store, slot: Slot, fields: Fields, other: Slot)
    ensures Get(Set(store, slot, fields), other) == if other == slot then fields else Get(store, other)
  {
  }

  /** `isSeedreamModel`: a Doubao model whose lower-cased id mentions `seedream`. */
  predicate IsSeedream(provider: string, model: string)
    ensures IsSeedream(provider, model) ==> provider == "doubao"
  {
    provider == "doubao" && Contains(Lower(model), "seedream")
  }

  /** `isSeedanceModel`: a Doubao model whose lower-cased id mentions `seedance`. */
  predicate IsSeedance(provider: string, model: string)
    ensures IsSeedance(provider, model) ==> provider == "doubao"
  {
    provider == "doubao" && Contains(Lower(model), "seedance")
  }

  /** Both tests ignore the case of the model id. */
  lemma SeedModelsIgnoreCase(provider: string, model: string)
    ensures IsSeedream(provider, Lower(model)) == IsSeedream(provider, model)
    ensures IsSeedance(provider, Lower(model)) == IsSeedance(provider, model)
  {
    assert Lower(Lower(model)) == Lower(model);
  }

  /** The slot each provider name has of its own. */
  const ProviderSlots: map<string, Slot> := map[
    "doubao" := Doubao, "deepseek" := DeepSeek, "siliconflow" := SiliconFlow,
    "cerebras" := Cerebras, "groq" := Groq, "grok" := Grok, "nvidia" := Nvidia,
    "openrouter" := OpenRouter, "mistral" := Mistral, "gemini" := Gemini]

  /**
   * The slot a provider and model use: the Seedream and Seedance slots
   * for those Doubao models, the provider's own slot for a known
   * provider, and the DeepSeek slot for any other name.
   */
  function SlotFor(provider: string, model: string): (slot: Slot)
    ensures slot == DoubaoSeedream <==> IsSeedream(provider, model)
    ensures slot == DoubaoSeedance <==> !IsSeedream(provider, model) && IsSeedance(provider, model)
    ensures slot == DeepSeek <==> provider !in ProviderSlots || provider == "deepseek"
  {
    if IsSeedream(provider, model) then DoubaoSeedream
    else if IsSeedance(provider, model) then DoubaoSeedance
    else if provider in ProviderSlots then ProviderSlots[provider]
    else DeepSeek
  }

  /** The checks `getCurrentSettings` makes, in its order. */
  function CurrentSlot(provider: string, model: string): (slot: Slot)
    ensures slot == SlotFor(provider, model)
  {
    if IsSeedream(provider, model) then DoubaoSeedream
    else if IsSeedance(provider, model) then DoubaoSeedance
    else if provider == "doubao" then Doubao
    else if provider == "deepseek" then DeepSeek
    else if provider == "siliconflow" then SiliconFlow
    else if provider == "cerebras" then Cerebras
    else if provider == "groq" then Groq
    else if provider == "grok" then Grok
    else if provider == "nvidia" then Nvidia
    else if provider == "openrouter" then OpenRouter
    else if provider == "mistral" then Mistral
    else if provider == "gemini" then Gemini
    else DeepSeek
  }

  /** The checks `activeSettings` and `handleSettingsChange` make, in their order. */
  function ActiveSlot(provider: string, model: string): (slot: Slot)
    ensures slot == SlotFor(provider, model)
  {
    if IsSeedream(provider, model) then DoubaoSeedream
    else if IsSeedance(provider, model) then DoubaoSeedance
    else if provider == "doubao" then Doubao
    else if provider == "siliconflow" then SiliconFlow
    else if provider == "cerebras" then Cerebras
    else if provider == "groq" then Groq
    else if provider == "grok" then Grok
    else if provider == "nvidia" then Nvidia
    else if provider == "openrouter" then OpenRouter
    else if provider == "mistral" then Mistral
    else if provider == "gemini" then Gemini
    else DeepSeek
  }

  /** Both orders of checks pick the slot `SlotFor` names, for every provider and model. */
  lemma DispatchAgrees(provider: string, model: string)
    ensures CurrentSlot(provider, model) == SlotFor(provider, model)
    ensures ActiveSlot(provider, model) == SlotFor(provider, model)
  {
  }

  /** Only a Doubao model has a Seedream or Seedance slot; every other name without a slot of its own uses DeepSeek's. */
  lemma SeedSlotsAreDoubao(provider: string, model: string)
    ensures SlotFor(provider, model) in {DoubaoSeedream, DoubaoSeedance} ==> provider == "doubao"
    ensures provider != "doubao" ==> SlotFor(provider, model) == if provider in ProviderSlots then ProviderSlots[provider] else DeepSeek
  {
  }

  // -------------------------------------------------------------- the hook

  /** The `stop` field when it holds text. */
  function StopText(fields: Fields): Option<string> {
    if "stop" in fields && fields["stop"].Text? then Some(fields["stop"].s) else None
  }

  /**
   * `{ ...settings, stop: parseStop(settings.stop) }`. A `stop` of
   * `undefined` is not sent, so it is the same as no `stop` field.
   */
  function WithParsedStop(fields: Fields): (r: Fields)
    ensures forall k :: k != "stop" ==> (k in r <==> k in fields) && (k in r ==> r[k] == fields[k])
    ensures "stop" in r <==> ParseStop(StopText(fields)).Some?
    ensures "stop" in r ==> r["stop"] == Texts(ParseStop(StopText(fields)).value)
  {
    match ParseStop(StopText(fields))
    case None => fields - {"stop"}
    case Some(pieces) => fields["stop" := Texts(pieces)]
  }

  /**
   * `getCurrentSettings`: the Seedream and Seedance settings as they are;
   * any other slot's settings with the stop string parsed into a list.
   */
  function GetCurrentSettings(store: Store, provider: string, model: string): (r: Fields)
    ensures IsSeedream(provider, model) || IsSeedance(provider, model) ==> r == Get(store, SlotFor(provider, model))
    ensures !IsSeedream(provider, model) && !IsSeedance(provider, model) ==>
      r == WithParsedStop(Get(store, SlotFor(provider, model)))
  {
    var slot := CurrentSlot(provider, model);
    if slot == DoubaoSeedream || slot == DoubaoSeedance then Get(store, slot)
    else WithParsedStop(Get(store, slot))
  }

  /** `activeSettings`: the settings object the panel shows and edits. */
  function ActiveSettings(store: Store, provider: string, model: string): (r: Fields)
    ensures r == Get(store, SlotFor(provider, model))
  {
    Get(store, ActiveSlot(provider, model))
  }

  /** `handleSettingsChange`: the panel's new settings replace the selected slot's. */
  function HandleSettingsChange(store: Store, provider: string, model: string, newSettings: Fields): (r: Store)
    ensures Get(r, SlotFor(provider, model)) == newSettings
    ensures forall slot :: slot != SlotFor(provider, model) ==> Get(r, slot) == Get(store, slot)
  {
    SetTouchesOneSlot(store, ActiveSlot(provider, model), newSettings);
    Set(store, ActiveSlot(provider, model), newSettings)
  }

  /** A setter changes its own slot to the new object and no other slot. */
  lemma SetTouchesOneSlot(store: Store, slot: Slot, fields: Fields)
    ensures Get(Set(store, slot, fields), slot) == fields
    ensures forall other :: other != slot ==> Get(Set(store, slot, fields), other) == Get(store, other)
  {
    GetAfterSet(store, slot, fields, slot);
    forall other | other != slot
      ensures Get(Set(store, slot, fields), other) == Get(store, other)
    {
      GetAfterSet(store, slot, fields, other);
    }
  }

  /**
   * A change is read back by the panel and by the next request, and no
   * other slot changes.
   */
  lemma ChangeIsReadBack(store: Store, provider: string, model: string, newSettings: Fields)
    ensures var store' := HandleSettingsChange(store, provider, model, newSettings);
      ActiveSettings(store', provider, model) == newSettings &&
      GetCurrentSettings(store', provider, model) ==
        (if IsSeedream(provider, model) || IsSeedance(provider, model) then newSettings else WithParsedStop(newSettings)) &&
      forall slot :: slot != SlotFor(provider, model) ==> Get(store', slot) == Get(store, slot)
  {
    DispatchAgrees(provider, model);
    var slot := SlotFor(provider, model);
    GetAfterSet(store, slot, newSettings, slot);
    forall other | other != slot
      ensures Get(Set(store, slot, newSettings), other) == Get(store, other)
    {
      GetAfterSet(store, slot, newSettings, other);
    }
  }

  /** A request uses the settings the panel shows, with only the stop field changed outside the two Doubao media slots. */
  lemma CurrentIsActive(store: Store, provider: string, model: string)
    ensures var active := ActiveSettings(store, provider, model);
      GetCurrentSettings(store, provider, model) ==
        if IsSeedream(provider, model) || IsSeedance(provider, model) then active else WithParsedStop(active)
  {
    DispatchAgrees(provider, model);
  }
}
