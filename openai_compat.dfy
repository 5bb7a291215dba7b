/**
 * The OpenAI-compatible backend (`infra/llm/openai_compat_client.py`): a
 * chat-completions POST under a strict JSON-schema response format, retried
 * once in `json_object` mode when the provider rejects the schema.
 */
module OpenAICompatClient {
  import opened Wrappers
  import opened PyText
  import opened JsonValue
  import opened ModelContract

  /** The settings this backend reads (`None` where a setting may be unset). */
  datatype CompatSettings = CompatSettings(
    baseUrl: Option<string>,
    apiKey: Option<string>,
    model: string,
    systemRules: string)

  const CompletionsPath := "/chat/completions"

  /** `_chat_completions_url()`: the base without its trailing slashes, then the path. */
  function ChatCompletionsUrl(baseUrl: Option<string>): (url: string)
    ensures |url| >= |CompletionsPath| && url[|url| - |CompletionsPath|..] == CompletionsPath
    ensures var base := url[..|url| - |CompletionsPath|];
      && |base| <= |OrEmpty(baseUrl)| && base == OrEmpty(baseUrl)[..|base|]
      && (forall i :: |base| <= i < |OrEmpty(baseUrl)| ==> OrEmpty(baseUrl)[i] == '/')
      && (base == [] || base[|base| - 1] != '/')
  {
    var base := TrimTrailing(OrEmpty(baseUrl), '/');
    assert (base + CompletionsPath)[..|base|] == base;
    base + CompletionsPath
  }

  /** `_headers()`: always the content type; the bearer token exactly when the stripped key is non-empty. */
  function Headers(apiKey: Option<string>): (h: map<string, string>)
    ensures "Content-Type" in h && h["Content-Type"] == "application/json"
    ensures "Authorization" in h <==> Strip(OrEmpty(apiKey)) != []
    ensures "Authorization" in h ==> h["Authorization"] == "Bearer " + Strip(OrEmpty(apiKey))
    ensures h.Keys <= {"Content-Type", "Authorization"}
  {
    var key := Strip(OrEmpty(apiKey));
    var headers := map["Content-Type" := "application/json"];
    if key != [] then headers["Authorization" := "Bearer " + key] else headers
  }

  const ContractFields: set<string> := {"assistant_text", "updated_user_description"}

  /**
   * `_response_format_schema()`: a strict JSON schema for an object whose
   * properties are exactly the two contract fields, both strings, both
   * required, and nothing else allowed.
   */
  function ResponseFormatSchema(): (f: Json)
    ensures f.JObj? && DictGet(f.fields, "type") == Some(JStr("json_schema"))
    ensures "json_schema" in f.fields && f.fields["json_schema"].JObj?
    ensures var js := f.fields["json_schema"].fields;
      && DictGet(js, "strict") == Some(JBool(true))
      && "schema" in js && js["schema"].JObj?
      && var schema := js["schema"].fields;
         && DictGet(schema, "type") == Some(JStr("object"))
         && DictGet(schema, "additionalProperties") == Some(JBool(false))
         && "properties" in schema && schema["properties"].JObj?
         && schema["properties"].fields.Keys == ContractFields
         && (forall k :: k in schema["properties"].fields ==>
               schema["properties"].fields[k] == JObj(map["type" := JStr("string")]))
         && "required" in schema && schema["required"].JArr?
         && |schema["required"].items| == 2
         && (forall k :: k in ContractFields <==> JStr(k) in schema["required"].items)
  {
    var stringType := JObj(map["type" := JStr("string")]);
    var schema := map[
      "type" := JStr("object"),
      "additionalProperties" := JBool(false),
      "properties" := JObj(map["assistant_text" := stringType, "updated_user_description" := stringType]),
      "required" := JArr([JStr("assistant_text"), JStr("updated_user_description")])];
    JObj(map[
      "type" := JStr("json_schema"),
      "json_schema" := JObj(map[
        "name" := JStr("assistant_contract"),
        "strict" := JBool(true),
        "schema" := JObj(schema)])])
  }

  /** The looser format of the retry. */
  function JsonObjectFormat(): (f: Json)
    ensures f.JObj? && f.fields == map["type" := JStr("json_object")]
  {
    JObj(map["type" := JStr("json_object")])
  }

  function ChatCall(url: string, headers: map<string, string>, cfg: CompatSettings,
                    promptUsed: string, format: Json): Call
  {
    Post(url, headers, ChatPayload(cfg.model, cfg.systemRules, promptUsed, format))
  }

  /**
   * `_parse_choice_content(data)`: `""` without choices; else the first
   * choice's `message.content` stripped when it is a string, serialised when
   * it is a dict; else its `text` stripped when that is a string; else `""`.
   * Shapes Python cannot index or call `.get` on raise.
   */
  function ParseChoiceContent(data: Json, codec: JsonCodec): (r: Result<string, PyException>)
    ensures !data.JObj? ==> r == Err(AttributeError)
    ensures data.JObj? && !("choices" in data.fields && Truthy(data.fields["choices"])) ==> r == Ok("")
    ensures data.JObj? && "choices" in data.fields && Truthy(data.fields["choices"]) ==>
      var choices := data.fields["choices"];
      && (choices.JObj? ==> r == Err(KeyError))
      && (choices.JStr? ==> r == Err(AttributeError))
      && (choices.JNum? || choices.JBool? ==> r == Err(TypeError))
    ensures r.Ok? && r.value != [] ==>
      Stripped(r.value) || exists v: Json :: v.JObj? && r.value == codec.dumpsCompact(v)
  {
    if !data.JObj? then Err(AttributeError)
    else match DictGet(data.fields, "choices")
      case None => Ok("")
      case Some(choices) =>
        if !Truthy(choices) then Ok("")
        else match choices
          case JArr(items) =>
            var c0 := if Truthy(items[0]) then items[0] else JObj(map[]);
            if !c0.JObj? then Err(AttributeError)
            else
              var m := DictGet(c0.fields, "message");
              var msg := if m.Some? && Truthy(m.value) then m.value else JObj(map[]);
              if !msg.JObj? then Err(AttributeError)
              else
                (match DictGet(msg.fields, "content")
                 case Some(JStr(content)) => StripFacts(content); Ok(Strip(content))
                 case Some(JObj(content)) => Ok(codec.dumpsCompact(JObj(content)))
                 case _ =>
                   (match DictGet(c0.fields, "text")
                    case Some(JStr(text)) => StripFacts(text); Ok(Strip(text))
                    case _ => Ok("")))
          case JObj(_) => Err(KeyError)
          case JStr(_) => Err(AttributeError)
          case _ => Err(TypeError)
  }

  /** The standard shape `{"choices": [{"message": {"content": s}}]}` gives `s` stripped. */
  lemma StandardChoiceContent(s: string, codec: JsonCodec)
    ensures ParseChoiceContent(JObj(map["choices" := JArr([JObj(map["message" := JObj(map["content" := JStr(s)])])])]), codec)
      == Ok(Strip(s))
  {
    var msg := JObj(map["content" := JStr(s)]);
    var c0 := JObj(map["message" := msg]);
    var data := JObj(map["choices" := JArr([c0])]);
    assert DictGet(data.fields, "choices") == Some(JArr([c0])) && Truthy(JArr([c0]));
    assert Truthy(c0) && DictGet(c0.fields, "message") == Some(msg) && Truthy(msg);
    assert DictGet(msg.fields, "content") == Some(JStr(s));
  }

  /**
   * The order in which the first choice of a `choices` list is read. A falsy
   * choice or `message` counts as `{}`; a choice or `message` that is not a
   * dict raises. Then a string `message.content` is stripped, a dict
   * `message.content` serialised, and otherwise a string `text` stripped;
   * anything else gives "".
   */
  lemma ChoiceContentOrder(first: Json, rest: seq<Json>, codec: JsonCodec)
    ensures var r := ParseChoiceContent(JObj(map["choices" := JArr([first] + rest)]), codec);
      var c0 := if Truthy(first) then first else JObj(map[]);
      && (!c0.JObj? ==> r == Err(AttributeError))
      && (c0.JObj? ==>
            var m := DictGet(c0.fields, "message");
            var msg := if m.Some? && Truthy(m.value) then m.value else JObj(map[]);
            && (!msg.JObj? ==> r == Err(AttributeError))
            && (msg.JObj? ==>
                  var content := DictGet(msg.fields, "content");
                  var text := DictGet(c0.fields, "text");
                  && (content.Some? && content.value.JStr? ==> r == Ok(Strip(content.value.s)))
                  && (content.Some? && content.value.JObj? ==> r == Ok(codec.dumpsCompact(content.value)))
                  && (!(content.Some? && (content.value.JStr? || content.value.JObj?)) ==>
                        r == Ok(if text.Some? && text.value.JStr? then Strip(text.value.s) else ""))))
  {
    var choices := JArr([first] + rest);
    var data := JObj(map["choices" := choices]);
    assert DictGet(data.fields, "choices") == Some(choices) && Truthy(choices);
    assert choices.items[0] == first;
  }

  /** A completions-style reply `{"choices": [{"text": t}]}`, with no `message`, gives `t` stripped. */
  lemma CompletionsTextChoice(t: string, codec: JsonCodec)
    ensures ParseChoiceContent(JObj(map["choices" := JArr([JObj(map["text" := JStr(t)])])]), codec) == Ok(Strip(t))
  {
    ChoiceContentOrder(JObj(map["text" := JStr(t)]), [], codec);
    assert [JObj(map["text" := JStr(t)])] + [] == [JObj(map["text" := JStr(t)])];
  }

  /** The text whose keywords decide the retry: the error JSON re-serialised, or the raw body. */
  function ErrorText(body: string, codec: JsonCodec): string {
    match codec.loads(body)
    case Some(v) => codec.dumpsCompact(v)
    case None => body
  }

  /** The provider rejected the structured-output mode. */
  predicate SchemaRejected(errText: string) {
    var e := Lower(errText);
    Contains(e, "json_schema") || Contains(e, "response_format") || Contains(e, "schema") || Contains(e, "strict")
  }

  predicate RetryWanted(r: Response, codec: JsonCodec) {
    r.status >= 400 && SchemaRejected(ErrorText(r.body, codec))
  }

  /** `err = r.json()`, falling back to the raw body. */
  function ErrorBody(body: string, codec: JsonCodec): Json {
    match codec.loads(body)
    case Some(v) => v
    case None => JStr(body)
  }

  /** Everything after the last request: the status check, the body and the normalised reply. */
  function Finish(r: Response, codec: JsonCodec, promptUsed: string): (o: Outcome)
    ensures o.Returned? ==> o.promptUsed == promptUsed && o.contract.assistantText != []
    ensures r.status >= 400 ==>
      o == Diagnostic("Remote LLM error " + Decimal(r.status) + ": " + PyStr(codec, ErrorBody(r.body, codec)), promptUsed)
    ensures r.status < 400 && codec.loads(r.body).None? ==>
      o == Diagnostic("Remote LLM returned non-JSON HTTP body: " + Take(r.body, 200), promptUsed)
    ensures r.status < 400 && codec.loads(r.body).Some? ==>
      match ParseChoiceContent(codec.loads(r.body).value, codec)
      case Err(e) => o == Raised(e)
      case Ok(content) => o == match Interpret(content, codec.loads)
                               case Ok(c) => Returned(c, promptUsed)
                               case Err(e) => Raised(e)
  {
    if r.status >= 400 then
      Diagnostic("Remote LLM error " + Decimal(r.status) + ": " + PyStr(codec, ErrorBody(r.body, codec)), promptUsed)
    else match codec.loads(r.body)
      case None => Diagnostic("Remote LLM returned non-JSON HTTP body: " + Take(r.body, 200), promptUsed)
      case Some(data) =>
        match ParseChoiceContent(data, codec)
        case Err(e) => Raised(e)
        case Ok(content) =>
          match Interpret(content, codec.loads)
          case Ok(c) => Returned(c, promptUsed)
          case Err(e) => Raised(e)
  }

  const MissingKeyText := "Missing OPENAI_COMPAT_API_KEY (or GROQ_API_KEY). Set it in .env or env vars."

  /**
   * `generate_contract(request_obj)`. `first` is the outcome of the strict
   * request, `retry` the outcome the `json_object` request would have.
   */
  function GenerateContract(cfg: CompatSettings, request: Json, codec: JsonCodec,
                            first: HttpOutcome, retry: HttpOutcome): (x: Exchange)
    ensures x.outcome.Returned? ==>
      x.outcome.promptUsed == codec.dumps(request) && x.outcome.contract.assistantText != []
    ensures Strip(OrEmpty(cfg.apiKey)) == [] ==>
      x == Exchange(Diagnostic(MissingKeyText, codec.dumps(request)), [])
    ensures Strip(OrEmpty(cfg.apiKey)) != [] ==>
      && 1 <= |x.calls| <= 2
      && x.calls[0] == ChatCall(ChatCompletionsUrl(cfg.baseUrl), Headers(cfg.apiKey), cfg,
                                codec.dumps(request), ResponseFormatSchema())
      && (|x.calls| == 2 <==> first.Received? && RetryWanted(first.response, codec))
      && (|x.calls| == 2 ==>
            x.calls[1] == ChatCall(ChatCompletionsUrl(cfg.baseUrl), Headers(cfg.apiKey), cfg,
                                   codec.dumps(request), JsonObjectFormat()))
    ensures first.ConnectionError? || (first.Received? && RetryWanted(first.response, codec) && retry.ConnectionError?) ==>
      x.outcome.Returned? && x.outcome.contract.updatedUserDescription == ""
  {
    var promptUsed := codec.dumps(request);
    if Strip(OrEmpty(cfg.apiKey)) == [] then Exchange(Diagnostic(MissingKeyText, promptUsed), [])
    else
      var url := ChatCompletionsUrl(cfg.baseUrl);
      var headers := Headers(cfg.apiKey);
      var strict := ChatCall(url, headers, cfg, promptUsed, ResponseFormatSchema());
      match first
      case ConnectionError(e) => Exchange(Diagnostic("Remote LLM connection error: " + e, promptUsed), [strict])
      case Received(r) =>
        if RetryWanted(r, codec) then
          var loose := ChatCall(url, headers, cfg, promptUsed, JsonObjectFormat());
          match retry
          case ConnectionError(e) =>
            Exchange(Diagnostic("Remote LLM connection error (retry): " + e, promptUsed), [strict, loose])
          case Received(r2) => Exchange(Finish(r2, codec, promptUsed), [strict, loose])
        else Exchange(Finish(r, codec, promptUsed), [strict])
  }

  /** A status still 400 or more after the optional retry gives a diagnostic with no profile update. */
  lemma FinalErrorIsDiagnostic(cfg: CompatSettings, request: Json, codec: JsonCodec,
                               first: HttpOutcome, retry: HttpOutcome)
    requires Strip(OrEmpty(cfg.apiKey)) != []
    requires first.Received?
    requires var last := if RetryWanted(first.response, codec) then retry else first;
      last.Received? && last.response.status >= 400
    ensures var x := GenerateContract(cfg, request, codec, first, retry);
      var last := if RetryWanted(first.response, codec) then retry else first;
      x.outcome == Diagnostic("Remote LLM error " + Decimal(last.response.status) + ": "
                              + PyStr(codec, ErrorBody(last.response.body, codec)), codec.dumps(request))
  {
  }
}
