/**
 * Backend selection (`infra/llm/client_factory.py`): the `LLM_BACKEND`
 * setting, stripped and lower-cased, picks the implementation.
 */
module ClientFactory {
  import opened Wrappers
  import opened PyText
  import opened JsonValue
  import opened ModelContract
  import OllamaClient
  import OpenAICompatClient

  datatype Settings = Settings(
    llmBackend: Option<string>,
    ollama: OllamaClient.OllamaSettings,
    compat: OpenAICompatClient.CompatSettings)

  /** The HTTP outcomes each possible request would have. */
  datatype Network = Network(
    ollamaGenerate: HttpOutcome,
    ollamaTags: HttpOutcome,
    compatFirst: HttpOutcome,
    compatRetry: HttpOutcome)

  /** `(settings.LLM_BACKEND or "").strip().lower()`. */
  function Backend(selector: Option<string>): string
  {
    Lower(Strip(OrEmpty(selector)))
  }

  /** `f"{settings.LLM_BACKEND}"`: the raw setting, `None` printed as such. */
  function ShowSetting(selector: Option<string>): string {
    if selector.Some? then selector.value else "None"
  }

  function UnknownBackendText(selector: Option<string>): string {
    "Unknown LLM_BACKEND='" + ShowSetting(selector) + "'. Use 'ollama' or 'openai_compat'."
  }

  /** `generate_contract(request_obj)` as the rest of the program calls it. */
  function GenerateContract(settings: Settings, request: Json, codec: JsonCodec, net: Network): (x: Exchange)
    ensures Backend(settings.llmBackend) == "ollama" ==>
      x == OllamaClient.GenerateContract(settings.ollama, request, codec, net.ollamaGenerate, net.ollamaTags)
    ensures Backend(settings.llmBackend) == "openai_compat" ==>
      x == OpenAICompatClient.GenerateContract(settings.compat, request, codec, net.compatFirst, net.compatRetry)
    ensures Backend(settings.llmBackend) !in {"ollama", "openai_compat"} ==>
      x == Exchange(Diagnostic(UnknownBackendText(settings.llmBackend), codec.dumps(request)), [])
    ensures x.outcome.Returned? ==>
      x.outcome.promptUsed == codec.dumps(request) && x.outcome.contract.assistantText != []
  {
    var backend := Backend(settings.llmBackend);
    if backend == "ollama" then
      OllamaClient.GenerateContract(settings.ollama, request, codec, net.ollamaGenerate, net.ollamaTags)
    else if backend == "openai_compat" then
      OpenAICompatClient.GenerateContract(settings.compat, request, codec, net.compatFirst, net.compatRetry)
    else
      Exchange(Diagnostic(UnknownBackendText(settings.llmBackend), codec.dumps(request)), [])
  }

  /** The selector ignores surrounding whitespace and letter case. */
  lemma SelectorIsNormalised(pre: string, value: string, post: string)
    requires AllSpace(pre) && AllSpace(post)
    ensures Backend(Some(pre + value + post)) == Backend(Some(value))
    ensures Backend(Some(Lower(value))) == Backend(Some(value))
  {
    StripIgnoresPadding(pre, value, post);
    StripLowerCommute(value);
    LowerIdempotent(Strip(value));
  }
}
