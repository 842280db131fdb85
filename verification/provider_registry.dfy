/**
 * The backend's provider registry (backend/provider_registry.py): a
 * dictionary fixed at import time from provider id to provider, with lookup
 * and catalogue listing over it.
 */
module ProviderRegistry {
  import opened Wrappers
  import opened ProviderBase

  /** The provider classes the registry can hold; the shipped registry holds one. */
  datatype Provider = DeepSeekProvider {
    function Id(): string { "deepseek" }
    function Name(): string { "DeepSeek" }
    function Description(): string { "DeepSeek AI language models" }
    predicate Supported() { true }
  }

  /** The record `list_providers` returns for one provider. */
  datatype ProviderInfo = ProviderInfo(id: string, name: string, description: string, supported: bool)

  /** `_PROVIDER_REGISTRY`: key/provider pairs in insertion order. */
  const Registry: seq<(string, Provider)> := [(DeepSeekProvider.Id(), DeepSeekProvider)]

  /** The registry holds exactly one provider, stored under its own id. */
  lemma RegistryWellFormed()
    ensures |Registry| == 1
    ensures forall k :: 0 <= k < |Registry| ==> Registry[k].0 == Registry[k].1.Id()
  {
  }

  /** Dictionary `get` over key/value pairs: the value under the first matching key. */
  function Lookup(entries: seq<(string, Provider)>, key: string): (r: Option<Provider>)
    ensures r.None? <==> forall k :: 0 <= k < |entries| ==> entries[k].0 != key
    ensures r.Some? ==> exists k :: 0 <= k < |entries| && entries[k] == (key, r.value)
  {
    if entries == [] then None
    else if entries[0].0 == key then Some(entries[0].1)
    else
      var r := Lookup(entries[1..], key);
      assert r.Some? ==> exists k :: 0 <= k < |entries[1..]| && entries[1..][k] == (key, r.value);
      r
  }

  /** `get_provider`. */
  function GetProvider(providerId: string): (p: Option<Provider>)
    ensures p.None? <==> forall k :: 0 <= k < |Registry| ==> Registry[k].0 != providerId
    ensures p.Some? ==> p.value.Id() == providerId
  {
    Lookup(Registry, providerId)
  }

  /** Exactly the id "deepseek" is registered, and lookup returns the provider with the id asked for. */
  lemma GetProviderSpec(providerId: string)
    ensures GetProvider(providerId).Some? <==> providerId == "deepseek"
    ensures GetProvider(providerId).Some? ==> GetProvider(providerId).value.Id() == providerId
  {
  }

  function Info(p: Provider): ProviderInfo {
    ProviderInfo(p.Id(), p.Name(), p.Description(), p.Supported())
  }

  /** `list_providers`: one record per registered provider, in registry order. */
  function ListProviders(): (r: seq<ProviderInfo>)
    ensures |r| == |Registry|
    ensures forall k :: 0 <= k < |r| ==> r[k].id == Registry[k].0 && r[k] == Info(Registry[k].1)
  {
    seq(|Registry|, k requires 0 <= k < |Registry| => Info(Registry[k].1))
  }

  /** `DeepSeekProvider.list_models`: the two fixed descriptors. */
  function ProviderModels(p: Provider): seq<ModelInfo> {
    match p
    case DeepSeekProvider => [
      ModelInfo("deepseek-chat", "DeepSeek Chat", "deepseek", "DeepSeek's flagship conversational model"),
      ModelInfo("deepseek-reasoner", "DeepSeek Reasoner", "deepseek", "DeepSeek's advanced reasoning model")
    ]
  }

  /** Every descriptor a provider lists names that provider, and ids are distinct. */
  lemma ProviderModelsNameTheirProvider(p: Provider)
    ensures forall k :: 0 <= k < |ProviderModels(p)| ==> ProviderModels(p)[k].provider == p.Id()
    ensures forall j, k :: 0 <= j < k < |ProviderModels(p)| ==> ProviderModels(p)[j].id != ProviderModels(p)[k].id
  {
  }

  /** The catalogues of `entries`, concatenated in order. */
  function AllModels(entries: seq<(string, Provider)>): seq<ModelInfo> {
    if entries == [] then [] else ProviderModels(entries[0].1) + AllModels(entries[1..])
  }

  lemma {:induction false} AllModelsSnoc(entries: seq<(string, Provider)>, e: (string, Provider))
    ensures AllModels(entries + [e]) == AllModels(entries) + ProviderModels(e.1)
    decreases |entries|
  {
    if entries == [] {
      assert [e][1..] == [];
    } else {
      assert (entries + [e])[1..] == entries[1..] + [e];
      AllModelsSnoc(entries[1..], e);
    }
  }

  /**
   * `list_models`. A provider id that is None or "" (falsy) means every
   * provider; an id that is not registered gives no models.
   */
  method ListModels(provider: Option<string>) returns (models: seq<ModelInfo>)
    ensures (provider.None? || provider.value == "") ==> models == AllModels(Registry)
    ensures provider.Some? && provider.value != "" ==>
      models == (match GetProvider(provider.value) case None => [] case Some(p) => ProviderModels(p))
  {
    if provider.Some? && provider.value != "" {
      var p := GetProvider(provider.value);
      if p.None? {
        return [];
      }
      return ProviderModels(p.value);
    }
    models := [];
    var i := 0;
    while i < |Registry|
      invariant 0 <= i <= |Registry|
      invariant models == AllModels(Registry[..i])
    {
      AllModelsSnoc(Registry[..i], Registry[i]);
      assert Registry[..i + 1] == Registry[..i] + [Registry[i]];
      models := models + ProviderModels(Registry[i].1);
      i := i + 1;
    }
    assert Registry[..i] == Registry;
  }

  /** With the shipped registry, listing everything and listing "deepseek" give the same two models. */
  lemma ListingsAgree()
    ensures AllModels(Registry) == ProviderModels(DeepSeekProvider)
    ensures |AllModels(Registry)| == 2
    ensures AllModels(Registry)[0].id == "deepseek-chat" && AllModels(Registry)[1].id == "deepseek-reasoner"
  {
    assert Registry[1..] == [];
  }
}
