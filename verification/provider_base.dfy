/**
 * The catalogue half of the provider adapters (backend/providers/base.py,
 * groq.py, doubao.py): turning a client's model ids into model descriptors.
 */
module ProviderBase {
  import opened Wrappers
  import opened Text

  /** A model descriptor as the `/models` endpoint returns it. */
  datatype ModelInfo = ModelInfo(id: string, name: string, provider: string, description: string)

  /** The `BaseLLMProvider` subclasses whose catalogue hooks differ. */
  datatype ProviderKind = DefaultKind(providerId: string) | GroqKind

  function KindId(kind: ProviderKind): string {
    match kind
    case DefaultKind(id) => id
    case GroqKind => "groq"
  }

  // ------------------------------------------------------ model-name format

  /** `-`, `_` and `/` become spaces. */
  function Despaced(mid: string): (r: string)
    ensures |r| == |mid|
    ensures forall i :: 0 <= i < |mid| ==> r[i] == if mid[i] in "-_/" then ' ' else mid[i]
  {
    seq(|mid|, i requires 0 <= i < |mid| => if mid[i] in "-_/" then ' ' else mid[i])
  }

  /** The character map is the source's three chained `str.replace` calls. */
  lemma DespacedIsReplace(mid: string)
    ensures Despaced(mid) == ReplaceAll(ReplaceAll(ReplaceAll(mid, "-", " "), "_", " "), "/", " ")
  {
    ReplaceCharIsMap(mid, '-', ' ');
    var a := MapChar(mid, '-', ' ');
    ReplaceCharIsMap(a, '_', ' ');
    var b := MapChar(a, '_', ' ');
    ReplaceCharIsMap(b, '/', ' ');
  }

  /** `LLMProvider._format_model_name`: separators to spaces, title case, whitespace runs collapsed. */
  function FormatModelName(mid: string): (name: string)
    ensures '-' !in name && '_' !in name && '/' !in name
  {
    var d := Despaced(mid);
    var t := Title(d);
    TitleKeepsAbsent(d, '-');
    TitleKeepsAbsent(d, '_');
    TitleKeepsAbsent(d, '/');
    WordsFromKeepAbsent(t, [], '-');
    WordsFromKeepAbsent(t, [], '_');
    WordsFromKeepAbsent(t, [], '/');
    JoinKeepsAbsent(Words(t), " ", '-');
    JoinKeepsAbsent(Words(t), " ", '_');
    JoinKeepsAbsent(Words(t), " ", '/');
    Join(Words(t), " ")
  }

  lemma TitleKeepsAbsent(s: string, c: char)
    requires !IsLetter(c) && c !in s
    ensures c !in Title(s)
  {
    var r := Title(s);
    forall i | 0 <= i < |r| ensures r[i] != c {
      TitleCharKeepsNonLetter(s[i], if i == 0 then false else IsLetter(s[i - 1]));
    }
  }

  lemma TitleCharKeepsNonLetter(x: char, prevCased: bool)
    ensures !IsLetter(TitleChar(x, prevCased)) ==> TitleChar(x, prevCased) == x
  {
  }

  lemma {:induction false} JoinKeepsAbsent(ws: seq<string>, sep: string, c: char)
    requires c !in sep && forall k :: 0 <= k < |ws| ==> c !in ws[k]
    ensures c !in Join(ws, sep)
    decreases |ws|
  {
    if |ws| > 1 {
      JoinKeepsAbsent(ws[1..], sep, c);
    }
  }

  /** The display name keeps no separator, has no whitespace at its ends and single spaces between words. */
  lemma FormatModelNameShape(mid: string)
    ensures var name := FormatModelName(mid);
      && '-' !in name && '_' !in name && '/' !in name
      && (name != [] ==> !IsSpace(name[0]) && !IsSpace(name[|name| - 1]))
      && (forall i :: 0 <= i < |name| && IsSpace(name[i]) ==>
            name[i] == ' ' && 0 < i < |name| - 1 && !IsSpace(name[i - 1]) && !IsSpace(name[i + 1]))
  {
    var ws := Words(Title(Despaced(mid)));
    WordsAreClean(Title(Despaced(mid)));
    JoinWordsIsClean(ws);
  }

  /** An id that starts with a letter has a display name whose first word starts with that letter, upper-cased. */
  lemma FormatModelNameFirstWord(mid: string)
    requires mid != [] && IsLetter(mid[0])
    ensures Words(FormatModelName(mid)) != [] && Words(FormatModelName(mid))[0] != []
    ensures Words(FormatModelName(mid))[0][0] == UpperChar(mid[0])
  {
    var d := Despaced(mid);
    assert d[0] == mid[0];
    var t := Title(d);
    assert t[0] == UpperChar(mid[0]);
    WordsFromHead(t, []);
    var ws := Words(t);
    var name := Join(ws, " ");
    JoinNonEmpty(ws, " ");
    WordsFromHead(name, []);
  }

  // ------------------------------------------------------------ list_models

  /** `_should_skip_model`: the default skips nothing; Groq skips speech models. */
  predicate ShouldSkip(kind: ProviderKind, mid: string) {
    match kind
    case DefaultKind(_) => false
    case GroqKind => Contains(Lower(mid), "whisper")
  }

  /** `_get_fallback_models`: the ids used when the client lists none. */
  function Fallback(kind: ProviderKind): seq<string> {
    match kind
    case DefaultKind(_) => []
    case GroqKind => ["llama-3.1-8b-instant", "llama-3.3-70b-versatile"]
  }

  /** `m` is the descriptor `list_models` builds for its id: the display name doubles as description. */
  predicate Describes(kind: ProviderKind, m: ModelInfo) {
    m.provider == KindId(kind) && m.name == FormatModelName(m.id) && m.description == m.name
  }

  /** Every descriptor of `models` is the one `list_models` builds for its id. */
  predicate AllDescribe(kind: ProviderKind, models: seq<ModelInfo>)
    decreases |models|
  {
    models != [] ==> Describes(kind, models[0]) && AllDescribe(kind, models[1..])
  }

  lemma {:induction false} AllDescribeSnoc(kind: ProviderKind, models: seq<ModelInfo>, m: ModelInfo)
    requires AllDescribe(kind, models) && Describes(kind, m)
    ensures AllDescribe(kind, models + [m])
    decreases |models|
  {
    if models == [] {
      assert [m][1..] == [];
    } else {
      assert (models + [m])[1..] == models[1..] + [m];
      AllDescribeSnoc(kind, models[1..], m);
    }
  }

  /** `AllDescribe` read pointwise. */
  lemma {:induction false} AllDescribeAt(kind: ProviderKind, models: seq<ModelInfo>, k: nat)
    requires AllDescribe(kind, models) && k < |models|
    ensures Describes(kind, models[k])
    decreases k
  {
    if k > 0 {
      AllDescribeAt(kind, models[1..], k - 1);
    }
  }

  /** The ids of a list of descriptors, in order. */
  function Ids(models: seq<ModelInfo>): (r: seq<string>)
    ensures |r| == |models|
  {
    if models == [] then [] else [models[0].id] + Ids(models[1..])
  }

  /** The ids the catalogue is built from: the client's, or the fallback when it has none. */
  function SourceIds(kind: ProviderKind, clientIds: Option<seq<string>>): seq<string> {
    if clientIds.Some? && clientIds.value != [] then clientIds.value else Fallback(kind)
  }

  /** The ids of `ids` that are not skipped, in order. */
  function Kept(kind: ProviderKind, ids: seq<string>): (r: seq<string>)
    ensures |r| <= |ids|
  {
    if ids == [] then []
    else if ShouldSkip(kind, ids[0]) then Kept(kind, ids[1..])
    else [ids[0]] + Kept(kind, ids[1..])
  }

  /**
   * `BaseLLMProvider.list_models`. `clientIds` is what the client's
   * `list_models` returned, or None when the client has no such method.
   */
  method ListModels(kind: ProviderKind, clientIds: Option<seq<string>>) returns (models: seq<ModelInfo>)
    ensures Ids(models) == Kept(kind, SourceIds(kind, clientIds))
    ensures AllDescribe(kind, models)
  {
    var modelIds: seq<string>;
    if clientIds.Some? {
      modelIds := clientIds.value;
    } else {
      modelIds := [];
    }
    if modelIds == [] {
      modelIds := Fallback(kind);
    }
    models := DescribeModels(kind, modelIds);
  }

  /** The loop of `list_models`: a descriptor for every id the provider does not skip, in order. */
  method DescribeModels(kind: ProviderKind, modelIds: seq<string>) returns (models: seq<ModelInfo>)
    ensures Ids(models) == Kept(kind, modelIds)
    ensures AllDescribe(kind, models)
  {
    models := [];
    var i := 0;
    while i < |modelIds|
      invariant 0 <= i <= |modelIds|
      invariant Ids(models) == Kept(kind, modelIds[..i])
      invariant AllDescribe(kind, models)
    {
      var mid := modelIds[i];
      KeptSnoc(kind, modelIds[..i], mid);
      assert modelIds[..i + 1] == modelIds[..i] + [mid];
      if !ShouldSkip(kind, mid) {
        var name := FormatModelName(mid);
        var m := ModelInfo(mid, name, KindId(kind), name);
        IdsSnoc(models, m);
        AllDescribeSnoc(kind, models, m);
        models := models + [m];
      }
      i := i + 1;
    }
    assert modelIds[..i] == modelIds;
  }

  lemma {:induction false} KeptSnoc(kind: ProviderKind, ids: seq<string>, x: string)
    ensures !ShouldSkip(kind, x) ==> Kept(kind, ids + [x]) == Kept(kind, ids) + [x]
    ensures ShouldSkip(kind, x) ==> Kept(kind, ids + [x]) == Kept(kind, ids)
    decreases |ids|
  {
    if ids == [] {
      assert [x][1..] == [];
    } else {
      assert (ids + [x])[1..] == ids[1..] + [x];
      KeptSnoc(kind, ids[1..], x);
    }
  }

  lemma {:induction false} IdsSnoc(models: seq<ModelInfo>, m: ModelInfo)
    ensures Ids(models + [m]) == Ids(models) + [m.id]
    decreases |models|
  {
    if models == [] {
      assert [m][1..] == [];
    } else {
      assert (models + [m])[1..] == models[1..] + [m];
      IdsSnoc(models[1..], m);
    }
  }

  /** A client that lists nothing falls back; with the default hooks that gives no models. */
  lemma DefaultWithoutModelsIsEmpty(id: string, clientIds: Option<seq<string>>)
    requires clientIds.None? || clientIds.value == []
    ensures Kept(DefaultKind(id), SourceIds(DefaultKind(id), clientIds)) == []
  {
  }

  /** The default hooks keep every id the client lists, in its order. */
  lemma {:induction false} DefaultKeepsAll(id: string, ids: seq<string>)
    ensures Kept(DefaultKind(id), ids) == ids
  {
    if ids != [] {
      DefaultKeepsAll(id, ids[1..]);
    }
  }

  /** Groq skips exactly the ids mentioning "whisper" in any case. */
  lemma GroqSkipsWhisper(mid: string)
    ensures ShouldSkip(GroqKind, mid) <==> Contains(Lower(mid), "whisper")
  {
  }

  /** The Groq fallback ids mention no "whisper" and so survive the filter. */
  lemma {:induction false} GroqFallbackKept()
    ensures Kept(GroqKind, Fallback(GroqKind)) == Fallback(GroqKind)
  {
    var f := Fallback(GroqKind);
    NoWhisperIn(f[0]);
    NoWhisperIn(f[1]);
    assert f[1..] == [f[1]];
    assert f[1..][1..] == [];
  }

  lemma NoWhisperIn(s: string)
    requires 'w' !in Lower(s)
    ensures !Contains(Lower(s), "whisper")
  {
    ContainsHead(Lower(s), "whisper");
  }

  // --------------------------------------------------------------- Doubao

  /** The fixed Doubao catalogue, in its listing order. */
  const DoubaoIds: seq<string> := [
    "doubao-1-5-vision-pro-32k-250115",
    "doubao-1-5-lite-32k-250115",
    "doubao-1-5-pro-32k-250115",
    "doubao-seed-1-6-vision-250815",
    "doubao-seed-1-6-flash-250828",
    "doubao-seed-1-6-lite-251015",
    "doubao-seed-1-6-251015",
    "doubao-seed-1-8-251228",
    "deepseek-r1-250528",
    "deepseek-v3-250324",
    "deepseek-v3-1-terminus",
    "deepseek-v3-2-251201",
    "kimi-k2-thinking-251104",
    "glm-4-7-251222",
    "doubao-seedream-4-5-251128",
    "doubao-seedream-4-0-250828",
    "doubao-seedance-1-5-pro-251215",
    "doubao-seedance-1-0-pro-250528",
    "doubao-seedance-1-0-pro-fast-251015",
    "doubao-seedance-1-0-lite-i2v-250428",
    "doubao-seedance-1-0-lite-t2v-250428"
  ]

  /** The model type in a Doubao description, checked in this order of precedence. */
  function DoubaoType(mid: string): (t: string)
    ensures t in {"image generation model", "vision model", "reasoning model", "code model", "conversational model"}
  {
    var low := Lower(mid);
    if Contains(low, "seedream") then "image generation model"
    else if Contains(low, "vision") then "vision model"
    else if Contains(low, "r1") || Contains(low, "thinking") || Contains(low, "seed") then "reasoning model"
    else if Contains(low, "code") then "code model"
    else "conversational model"
  }

  /** The description of a Doubao model: first word of its display name, "'s ", its type. */
  function DoubaoDescription(name: string, mid: string): string
    requires Words(name) != []
  {
    Words(name)[0] + "'s " + DoubaoType(mid)
  }

  /** `m` is the descriptor Doubao lists for `mid`. */
  predicate DescribesDoubao(m: ModelInfo, mid: string) {
    && m.id == mid
    && m.provider == "doubao"
    && m.name == FormatModelName(mid)
    && Words(m.name) != []
    && m.description == DoubaoDescription(m.name, mid)
  }

  lemma DoubaoIdsStartWithLetter()
    ensures forall k :: 0 <= k < |DoubaoIds| ==> DoubaoIds[k] != [] && IsLetter(DoubaoIds[k][0])
  {
  }

  /** `DoubaoProvider.list_models`: one descriptor per fixed id, without asking the client. */
  method ListDoubaoModels() returns (models: seq<ModelInfo>)
    ensures |models| == |DoubaoIds| == 21
    ensures forall k :: 0 <= k < |models| ==> DescribesDoubao(models[k], DoubaoIds[k])
  {
    var modelIds := DoubaoIds;
    DoubaoIdsStartWithLetter();
    models := [];
    var i := 0;
    while i < |modelIds|
      invariant 0 <= i <= |modelIds| && |models| == i
      invariant forall k :: 0 <= k < i ==> DescribesDoubao(models[k], DoubaoIds[k])
    {
      var modelId := modelIds[i];
      var name := FormatModelName(modelId);
      FormatModelNameFirstWord(modelId);
      var low := Lower(modelId);
      var descType: string;
      if Contains(low, "seedream") {
        descType := "image generation model";
      } else if Contains(low, "vision") {
        descType := "vision model";
      } else if Contains(low, "r1") || Contains(low, "thinking") || Contains(low, "seed") {
        descType := "reasoning model";
      } else if Contains(low, "code") {
        descType := "code model";
      } else {
        descType := "conversational model";
      }
      assert descType == DoubaoType(modelId);
      var m := ModelInfo(modelId, name, "doubao", Words(name)[0] + "'s " + descType);
      assert DescribesDoubao(m, DoubaoIds[i]);
      ghost var before := models;
      models := models + [m];
      forall k | 0 <= k < i + 1 ensures DescribesDoubao(models[k], DoubaoIds[k]) {
        if k < i {
          assert models[k] == before[k];
        }
      }
      i := i + 1;
    }
  }

  /** Seedance video models are described as reasoning models: they mention "seed" but not "seedream". */
  lemma SeedanceIsReasoning(mid: string)
    requires Contains(Lower(mid), "seedance") && !Contains(Lower(mid), "seedream") && !Contains(Lower(mid), "vision")
    ensures DoubaoType(mid) == "reasoning model"
  {
    var low := Lower(mid);
    var i := ContainsWitness(low, "seedance");
    assert low[i..i + 4] == low[i..i + 8][..4] == "seed";
    ContainsAt(low, "seed", i);
  }

  /** "seedream" wins over every other keyword. */
  lemma SeedreamWins(mid: string)
    requires Contains(Lower(mid), "seedream")
    ensures DoubaoType(mid) == "image generation model"
  {
  }
}
