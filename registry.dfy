/**
 * The model registry (`MODEL_CONFIGS` / `MODEL_NAMES`) and the client
 * resolver `get_client_for_model`, with the request that `ask_model` issues.
 *
 * The `OpenAI(...)` client object is represented by the arguments it is
 * built from (`ClientSpec`); the remote call is represented by the request
 * it would send (`CompletionRequest`).
 */
module ModelRegistry {
  import opened Wrappers

  /**
   * The `url` entry of one config dict as the resolver sees it:
   * no entry at all, an entry holding `None`, a `str`, or any other value.
   */
  datatype UrlField = UrlAbsent | UrlNone | UrlStr(url: string) | UrlOther

  /** One config dict; a missing or `None` `api_key` is `None`. */
  datatype ModelConfig = ModelConfig(apiKey: Option<string>, url: UrlField)

  /** One key/value pair of the registry dict. */
  datatype Entry = Entry(name: string, config: ModelConfig)

  /** The registry dict, in insertion order. */
  type Registry = seq<Entry>

  /** What the resolver constructs the client from: a key and, optionally, a base URL. */
  datatype ClientSpec = ClientSpec(apiKey: string, baseUrl: Option<string>)

  /** The three `ValueError`s the resolver raises, each naming the model. */
  datatype ConfigError =
    | UnknownModel(name: string)
    | ApiKeyNotConfigured(name: string)
    | InvalidUrlFormat(name: string)

  /** A chat message record `{"role": ..., "content": ...}`. */
  datatype ChatMessage = ChatMessage(role: string, content: string)

  /** The arguments of `client.chat.completions.create`, with the client they go to. */
  datatype CompletionRequest =
    CompletionRequest(client: ClientSpec, model: string, messages: seq<ChatMessage>, stream: bool)

  /** A Python dict never holds the same key twice. */
  ghost predicate DistinctNames(reg: Registry)
  {
    forall i, j :: 0 <= i < j < |reg| ==> reg[i].name != reg[j].name
  }

  /** `config.get("url") is None`. */
  predicate UrlIsNone(u: UrlField)
  {
    u.UrlAbsent? || u.UrlNone?
  }

  /** `list(MODEL_CONFIGS.keys())`: the names, in insertion order. */
  function Names(reg: Registry): (names: seq<string>)
    ensures |names| == |reg|
    ensures forall i :: 0 <= i < |reg| ==> names[i] == reg[i].name
  {
    if reg == [] then [] else [reg[0].name] + Names(reg[1..])
  }

  /** `name in MODEL_CONFIGS` together with `MODEL_CONFIGS[name]`. */
  function Lookup(reg: Registry, name: string): (r: Option<ModelConfig>)
    ensures r.Some? <==> name in Names(reg)
    ensures r.Some? ==> Entry(name, r.value) in reg
  {
    if reg == [] then None
    else if reg[0].name == name then Some(reg[0].config)
    else Lookup(reg[1..], name)
  }

  /** `get_client_for_model`: the checks run in the source's order (name, key, url). */
  function ResolveClient(reg: Registry, name: string): (r: Result<ClientSpec, ConfigError>)
    ensures r.Ok? ==> name in Names(reg) && r.value.apiKey != ""
    ensures r.Err? ==> r.error.name == name
  {
    match Lookup(reg, name)
    case None => Err(UnknownModel(name))
    case Some(config) =>
      if !Truthy(config.apiKey) then Err(ApiKeyNotConfigured(name))
      else if UrlIsNone(config.url) then Ok(ClientSpec(config.apiKey.value, None))
      else if !config.url.UrlStr? then Err(InvalidUrlFormat(name))
      else Ok(ClientSpec(config.apiKey.value, Some(config.url.url)))
  }

  /** The text of each `ValueError`: it ends with the requested model's name. */
  function ErrorMessage(e: ConfigError): (m: string)
    ensures |m| > |e.name| && m[|m| - |e.name|..] == e.name
  {
    match e
    case UnknownModel(name) => "Unknown model: " + name
    case ApiKeyNotConfigured(name) => "API key not configured for model: " + name
    case InvalidUrlFormat(name) => "Invalid URL format for model: " + name
  }

  /** The default `model` argument of `ask_model`. */
  const DefaultModel: string := "gpt-4o-mini"

  /**
   * `ask_model(messages, model="gpt-4o-mini", stream=False)`: resolve the
   * client, then send the registry key itself as the model id.
   */
  function AskModel(reg: Registry, messages: seq<ChatMessage>, model: string := DefaultModel, stream: bool := false)
    : (r: Result<CompletionRequest, ConfigError>)
    ensures r.Ok? <==> ResolveClient(reg, model).Ok?
    ensures r.Ok? ==>
              && r.value.client == ResolveClient(reg, model).value
              && r.value.model == model
              && r.value.messages == messages && r.value.stream == stream
    ensures r.Err? ==> r.error == ResolveClient(reg, model).error
  {
    match ResolveClient(reg, model)
    case Err(e) => Err(e)
    case Ok(client) => Ok(CompletionRequest(client, model, messages, stream))
  }

  /**
   * The `MODEL_CONFIGS` literal, given the value `os.getenv("OPENAI_API_KEY")`
   * returned; as a dict, its keys are distinct.
   */
  function ModelConfigs(openAiKey: Option<string>): (reg: Registry)
    ensures DistinctNames(reg)
  {
    [ Entry("gpt-4o-mini", ModelConfig(openAiKey, UrlAbsent)),
      Entry("qwen3", ModelConfig(Some("ollama"), UrlStr("http://localhost:11434/v1"))) ]
  }

  /** `MODEL_NAMES`. */
  function ModelNames(openAiKey: Option<string>): (names: seq<string>)
    ensures names == ["gpt-4o-mini", "qwen3"]
  {
    Names(ModelConfigs(openAiKey))
  }

  // ---------------------------------------------------------------------
  // Properties of the resolver
  // ---------------------------------------------------------------------

  /** In a dict, looking up the key of the entry at position i yields that entry's config. */
  lemma LookupAt(reg: Registry, i: nat)
    requires DistinctNames(reg)
    requires i < |reg|
    ensures Lookup(reg, reg[i].name) == Some(reg[i].config)
  {
    // Lookup finds some entry named reg[i].name; with distinct keys it is reg[i].
  }

  /** A name is reported unknown exactly when it is not among the registry's keys. */
  lemma ResolveUnknown(reg: Registry, name: string)
    ensures ResolveClient(reg, name) == Err(UnknownModel(name)) <==> name !in Names(reg)
  {
  }

  /**
   * A known model whose key is missing, `None` or empty is reported as
   * "API key not configured", whatever its url holds: the key check
   * comes before the url check, and the name is never reported unknown.
   */
  lemma ResolveMissingKey(reg: Registry, i: nat)
    requires DistinctNames(reg) && i < |reg|
    requires !Truthy(reg[i].config.apiKey)
    ensures ResolveClient(reg, reg[i].name) == Err(ApiKeyNotConfigured(reg[i].name))
  {
    LookupAt(reg, i);
  }

  /** With a usable key and no url (absent or `None`), the client uses the default endpoint. */
  lemma ResolveDefaultEndpoint(reg: Registry, i: nat)
    requires DistinctNames(reg) && i < |reg|
    requires Truthy(reg[i].config.apiKey) && UrlIsNone(reg[i].config.url)
    ensures ResolveClient(reg, reg[i].name) == Ok(ClientSpec(reg[i].config.apiKey.value, None))
  {
    LookupAt(reg, i);
  }

  /** With a usable key and a url that is present but not a `str`, the url is rejected. */
  lemma ResolveInvalidUrl(reg: Registry, i: nat)
    requires DistinctNames(reg) && i < |reg|
    requires Truthy(reg[i].config.apiKey) && reg[i].config.url.UrlOther?
    ensures ResolveClient(reg, reg[i].name) == Err(InvalidUrlFormat(reg[i].name))
  {
    LookupAt(reg, i);
  }

  /** With a usable key and a `str` url, even the empty one, the client carries exactly that url and key. */
  lemma ResolveCustomEndpoint(reg: Registry, i: nat)
    requires DistinctNames(reg) && i < |reg|
    requires Truthy(reg[i].config.apiKey) && reg[i].config.url.UrlStr?
    ensures ResolveClient(reg, reg[i].name)
         == Ok(ClientSpec(reg[i].config.apiKey.value, Some(reg[i].config.url.url)))
  {
    LookupAt(reg, i);
  }

  /** The empty string passes the url check: it is neither `None` nor a non-`str`. */
  lemma EmptyUrlAccepted(name: string, key: string)
    requires key != ""
    ensures ResolveClient([Entry(name, ModelConfig(Some(key), UrlStr("")))], name)
         == Ok(ClientSpec(key, Some("")))
  {
  }

  /** The three messages can be told apart, and each names its model. */
  lemma ErrorMessageInjective(e1: ConfigError, e2: ConfigError)
    requires ErrorMessage(e1) == ErrorMessage(e2)
    ensures e1 == e2
  {
    var m := ErrorMessage(e1);
    var prefix := match e1
      case UnknownModel(_) => "Unknown model: "
      case ApiKeyNotConfigured(_) => "API key not configured for model: "
      case InvalidUrlFormat(_) => "Invalid URL format for model: ";
    assert m == prefix + e1.name;
    // the kinds differ in their first letter
    assert m[0] == prefix[0];
    assert e1.UnknownModel? <==> m[0] == 'U';
    assert e1.InvalidUrlFormat? <==> m[0] == 'I';
    assert e2.UnknownModel? <==> m[0] == 'U';
    assert e2.InvalidUrlFormat? <==> m[0] == 'I';
    assert m[|prefix|..] == e1.name;
    assert m[|prefix|..] == e2.name;
  }

  // ---------------------------------------------------------------------
  // Properties of the concrete registry
  // ---------------------------------------------------------------------

  /**
   * Once the startup check has seen a non-empty `OPENAI_API_KEY`, both
   * registered models resolve (among them `ask_model`'s default), and
   * exactly the registered names do.
   */
  lemma ConcreteRegistryResolves(openAiKey: Option<string>)
    requires Truthy(openAiKey)
    ensures ResolveClient(ModelConfigs(openAiKey), DefaultModel) == Ok(ClientSpec(openAiKey.value, None))
    ensures ResolveClient(ModelConfigs(openAiKey), "qwen3")
         == Ok(ClientSpec("ollama", Some("http://localhost:11434/v1")))
    ensures forall name :: ResolveClient(ModelConfigs(openAiKey), name).Ok? <==> name in ModelNames(openAiKey)
  {
    var reg := ModelConfigs(openAiKey);
    ResolveDefaultEndpoint(reg, 0);
    ResolveCustomEndpoint(reg, 1);
    forall name | name in ModelNames(openAiKey)
      ensures ResolveClient(reg, name).Ok?
    {
      assert name == reg[0].name || name == reg[1].name;
    }
  }

  /**
   * The key is checked lazily by the resolver: on this registry without an
   * OpenAI key only `gpt-4o-mini` fails, and the local `qwen3` model still
   * resolves. The script itself never reaches this state, because its startup
   * check stops it before the registry is built when the key is missing or
   * empty; this is a property of the resolver, not of a run of the script.
   */
  lemma ConcreteRegistryWithoutKey(openAiKey: Option<string>)
    requires !Truthy(openAiKey)
    ensures ResolveClient(ModelConfigs(openAiKey), "gpt-4o-mini") == Err(ApiKeyNotConfigured("gpt-4o-mini"))
    ensures ResolveClient(ModelConfigs(openAiKey), "qwen3")
         == Ok(ClientSpec("ollama", Some("http://localhost:11434/v1")))
  {
    var reg := ModelConfigs(openAiKey);
    ResolveMissingKey(reg, 0);
    ResolveCustomEndpoint(reg, 1);
  }

  /**
   * A call with the default arguments, after the startup check, sends a
   * non-streamed request for `gpt-4o-mini` to the default endpoint.
   */
  lemma DefaultRequest(openAiKey: Option<string>, messages: seq<ChatMessage>)
    requires Truthy(openAiKey)
    ensures AskModel(ModelConfigs(openAiKey), messages)
         == Ok(CompletionRequest(ClientSpec(openAiKey.value, None), "gpt-4o-mini", messages, false))
  {
    ResolveDefaultEndpoint(ModelConfigs(openAiKey), 0);
  }

  /** The script's own request goes to the local endpoint as model `qwen3`, streamed. */
  lemma ScriptRequest(openAiKey: Option<string>, messages: seq<ChatMessage>)
    ensures AskModel(ModelConfigs(openAiKey), messages, model := "qwen3", stream := true)
         == Ok(CompletionRequest(ClientSpec("ollama", Some("http://localhost:11434/v1")), "qwen3", messages, true))
  {
    var reg := ModelConfigs(openAiKey);
    ResolveCustomEndpoint(reg, 1);
  }
}
