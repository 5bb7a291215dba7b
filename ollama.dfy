/**
 * The Ollama backend (`infra/llm/ollama_client.py`): one POST to
 * `{base}/api/generate`, and on a "model not found" error a GET of
 * `{base}/api/tags` to list the installed models in the diagnostic.
 */
module OllamaClient {
  import opened Wrappers
  import opened PyText
  import opened JsonValue
  import opened ModelContract

  /** The settings this backend reads. */
  datatype OllamaSettings = OllamaSettings(baseUrl: string, model: string, systemRules: string)

  function GenerateUrl(baseUrl: string): string { baseUrl + "/api/generate" }

  function TagsUrl(baseUrl: string): string { baseUrl + "/api/tags" }

  /** `raise_for_status()` raises for client and server errors. */
  predicate RaisesForStatus(status: int) {
    400 <= status < 600
  }

  /** The truthy `name` of each entry, in order (`[m.get("name", "") for m in entries if m.get("name")]`). */
  function NamedEntries(entries: seq<Json>): (names: seq<Json>)
    requires forall k :: 0 <= k < |entries| ==> entries[k].JObj?
    ensures |names| <= |entries|
    ensures forall k :: 0 <= k < |names| ==> Truthy(names[k])
    ensures forall k :: 0 <= k < |names| ==>
      exists e :: 0 <= e < |entries| && DictGet(entries[e].fields, "name") == Some(names[k])
    ensures forall e :: 0 <= e < |entries| && "name" in entries[e].fields && Truthy(entries[e].fields["name"]) ==>
      entries[e].fields["name"] in names
  {
    if entries == [] then []
    else
      var rest := NamedEntries(entries[1..]);
      assert forall k :: 0 <= k < |rest| ==>
        exists e :: 0 <= e < |entries| && DictGet(entries[e].fields, "name") == Some(rest[k]) by {
        forall k | 0 <= k < |rest|
          ensures exists e :: 0 <= e < |entries| && DictGet(entries[e].fields, "name") == Some(rest[k])
        {
          var e :| 0 <= e < |entries[1..]| && DictGet(entries[1..][e].fields, "name") == Some(rest[k]);
          assert entries[1..][e] == entries[e + 1];
        }
      }
      match DictGet(entries[0].fields, "name")
      case Some(n) => if Truthy(n) then [n] + rest else rest
      case None => rest
  }

  /** A single entry contributes its name exactly when that name is truthy. */
  lemma NamedEntriesOne(entry: Json)
    requires entry.JObj?
    ensures NamedEntries([entry]) ==
      if "name" in entry.fields && Truthy(entry.fields["name"]) then [entry.fields["name"]] else []
  {
    assert [entry][1..] == [];
  }

  /** The comprehension keeps order: the names of a concatenation are the concatenated names. */
  lemma {:induction false} NamedEntriesAppend(a: seq<Json>, b: seq<Json>)
    requires forall k :: 0 <= k < |a| ==> a[k].JObj?
    requires forall k :: 0 <= k < |b| ==> b[k].JObj?
    ensures NamedEntries(a + b) == NamedEntries(a) + NamedEntries(b)
  {
    if a == [] {
      assert a + b == b;
    } else {
      assert (a + b)[1..] == a[1..] + b;
      assert (a + b)[0] == a[0];
      NamedEntriesAppend(a[1..], b);
    }
  }

  /** When every entry carries a truthy name, all of them are kept, in order. */
  lemma {:induction false} AllNamedEntriesKept(entries: seq<Json>)
    requires forall k :: 0 <= k < |entries| ==> entries[k].JObj?
    requires forall k :: 0 <= k < |entries| ==>
      "name" in entries[k].fields && Truthy(entries[k].fields["name"])
    ensures NamedEntries(entries) == seq(|entries|, k requires 0 <= k < |entries| => entries[k].fields["name"])
  {
    if entries != [] {
      AllNamedEntriesKept(entries[1..]);
    }
  }

  /**
   * `_list_models()`: the names from a successful `/api/tags` reply. Any
   * failure (connection error, error status, a body that is not JSON, a shape
   * other than a dict whose `models` is a list of dicts) gives `[]`.
   */
  function ListModels(tags: HttpOutcome, loads: string -> Option<Json>): (names: seq<Json>)
    ensures forall k :: 0 <= k < |names| ==> Truthy(names[k])
    ensures tags.ConnectionError? ==> names == []
    ensures tags.Received? && RaisesForStatus(tags.response.status) ==> names == []
    ensures tags.Received? && !(loads(tags.response.body).Some? && loads(tags.response.body).value.JObj?) ==> names == []
  {
    match tags
    case ConnectionError(_) => []
    case Received(r) =>
      if RaisesForStatus(r.status) then []
      else match loads(r.body)
        case Some(JObj(data)) =>
          (match DictGet(data, "models")
           case Some(JArr(entries)) =>
             if forall k :: 0 <= k < |entries| ==> entries[k].JObj? then NamedEntries(entries) else []
           case _ => [])
        case _ => []
  }

  /** `", ".join(models)` succeeds only when every name is a string. */
  function ModelNames(models: seq<Json>): (r: Option<seq<string>>)
    ensures r.Some? <==> forall k :: 0 <= k < |models| ==> models[k].JStr?
    ensures r.Some? ==> |r.value| == |models| && forall k :: 0 <= k < |models| ==> r.value[k] == models[k].s
  {
    if forall k :: 0 <= k < |models| ==> models[k].JStr? then
      Some(seq(|models|, k requires 0 <= k < |models| => models[k].s))
    else None
  }

  /** `r.json().get("error", r.text)`, falling back to the body text when that raises. */
  function ErrorValue(body: string, loads: string -> Option<Json>): (err: Json)
    ensures (loads(body).Some? && loads(body).value.JObj? && "error" in loads(body).value.fields) ==>
      err == loads(body).value.fields["error"]
    ensures !(loads(body).Some? && loads(body).value.JObj? && "error" in loads(body).value.fields) ==>
      err == JStr(body)
  {
    match loads(body)
    case Some(JObj(fields)) => if "error" in fields then fields["error"] else JStr(body)
    case _ => JStr(body)
  }

  /** The "model not found" class of error: both phrases in the lower-cased text. */
  predicate ModelNotFound(errText: string) {
    var e := Lower(errText);
    Contains(e, "model") && Contains(e, "not found")
  }

  function NotFoundText(model: string, names: seq<string>): (t: string)
    ensures t != []
  {
    if names != [] then "Model '" + model + "' not found. Available: " + Join(", ", names)
    else "Model '" + model + "' not found. (No model list available.)"
  }

  /** The reply to a status of 400 or more. */
  function ErrorReply(cfg: OllamaSettings, r: Response, tags: HttpOutcome, codec: JsonCodec,
                      promptUsed: string): (o: Outcome)
    requires r.status >= 400
    ensures o.Returned? ==> o == Diagnostic(o.contract.assistantText, promptUsed) && o.contract.assistantText != []
    ensures o.Raised? ==> o.exception == TypeError
    ensures var err := PyStr(codec, ErrorValue(r.body, codec.loads));
      !ModelNotFound(err) ==> o == Diagnostic("Ollama error " + Decimal(r.status) + ": " + err, promptUsed)
    ensures ModelNotFound(PyStr(codec, ErrorValue(r.body, codec.loads))) ==>
      var models := ListModels(tags, codec.loads);
      (o.Raised? <==> ModelNames(models).None?)
      && (o.Returned? ==> o.contract.assistantText == NotFoundText(cfg.model, ModelNames(models).value))
  {
    var err := PyStr(codec, ErrorValue(r.body, codec.loads));
    if ModelNotFound(err) then
      match ModelNames(ListModels(tags, codec.loads))
      case None => Raised(TypeError)
      case Some(names) => Diagnostic(NotFoundText(cfg.model, names), promptUsed)
    else Diagnostic("Ollama error " + Decimal(r.status) + ": " + err, promptUsed)
  }

  /** The reply to a status below 400. */
  function SuccessReply(r: Response, codec: JsonCodec, promptUsed: string): (o: Outcome)
    ensures o.Returned? ==> o.promptUsed == promptUsed && o.contract.assistantText != []
    ensures codec.loads(r.body).None? ==>
      o == Diagnostic("Ollama returned non-JSON response: " + Take(r.body, 200), promptUsed)
    ensures o.Raised? ==> o.exception == AttributeError
    ensures codec.loads(r.body).Some? && codec.loads(r.body).value.JObj? ==>
      var data := codec.loads(r.body).value.fields;
      match FieldText(data, "response")
      case Err(_) => o == Raised(AttributeError)
      case Ok(text) => o == match Interpret(text, codec.loads)
                            case Ok(c) => Returned(c, promptUsed)
                            case Err(e) => Raised(e)
  {
    match codec.loads(r.body)
    case None => Diagnostic("Ollama returned non-JSON response: " + Take(r.body, 200), promptUsed)
    case Some(data) =>
      if !data.JObj? then Raised(AttributeError)
      else match FieldText(data.fields, "response")
        case Err(e) => Raised(e)
        case Ok(text) =>
          match Interpret(text, codec.loads)
          case Ok(c) => Returned(c, promptUsed)
          case Err(e) => Raised(e)
  }

  /**
   * `generate_contract(request_obj)`. `generate` is the outcome of the POST
   * and `tags` the outcome the GET of the model list would have.
   */
  function GenerateContract(cfg: OllamaSettings, request: Json, codec: JsonCodec,
                            generate: HttpOutcome, tags: HttpOutcome): (x: Exchange)
    ensures 1 <= |x.calls| <= 2
    ensures x.calls[0] == Post(GenerateUrl(cfg.baseUrl), map[],
                               GeneratePayload(cfg.model, cfg.systemRules, codec.dumps(request)))
    ensures |x.calls| == 2 <==>
      generate.Received? && generate.response.status >= 400
      && ModelNotFound(PyStr(codec, ErrorValue(generate.response.body, codec.loads)))
    ensures |x.calls| == 2 ==> x.calls[1] == Get(TagsUrl(cfg.baseUrl))
    ensures x.outcome.Returned? ==>
      x.outcome.promptUsed == codec.dumps(request) && x.outcome.contract.assistantText != []
    ensures generate.ConnectionError? ==>
      x.outcome == Diagnostic("Ollama connection error: " + generate.detail, codec.dumps(request))
    ensures generate.Received? && generate.response.status >= 400 && x.outcome.Returned? ==>
      x.outcome.contract.updatedUserDescription == ""
    ensures x.outcome.Raised? ==> generate.Received?
  {
    var promptUsed := codec.dumps(request);
    var post := Post(GenerateUrl(cfg.baseUrl), map[], GeneratePayload(cfg.model, cfg.systemRules, promptUsed));
    match generate
    case ConnectionError(e) => Exchange(Diagnostic("Ollama connection error: " + e, promptUsed), [post])
    case Received(r) =>
      if r.status >= 400 then
        var calls :=
          if ModelNotFound(PyStr(codec, ErrorValue(r.body, codec.loads)))
          then [post, Get(TagsUrl(cfg.baseUrl))] else [post];
        Exchange(ErrorReply(cfg, r, tags, codec, promptUsed), calls)
      else Exchange(SuccessReply(r, codec, promptUsed), [post])
  }

  /**
   * An error status whose error text says the model is not found gives the
   * diagnostic naming the listed models, in order, for any list of model
   * entries; a list holding a non-string name makes `", ".join` raise.
   */
  lemma NotFoundListsModels(cfg: OllamaSettings, request: Json, codec: JsonCodec, status: int,
                            errorBody: string, errorText: string, tagsBody: string, entries: seq<Json>)
    requires status >= 400
    requires codec.loads(errorBody) == Some(JObj(map["error" := JStr(errorText)]))
    requires ModelNotFound(errorText)
    requires forall k :: 0 <= k < |entries| ==> entries[k].JObj?
    requires codec.loads(tagsBody) == Some(JObj(map["models" := JArr(entries)]))
    ensures var o := GenerateContract(cfg, request, codec, Received(Response(status, errorBody)),
                                      Received(Response(200, tagsBody))).outcome;
      match ModelNames(NamedEntries(entries))
      case Some(names) => o == Diagnostic(NotFoundText(cfg.model, names), codec.dumps(request))
      case None => o == Raised(TypeError)
  {
    var r := Response(status, errorBody);
    var tags := Received(Response(200, tagsBody));
    var promptUsed := codec.dumps(request);
    assert PyStr(codec, ErrorValue(errorBody, codec.loads)) == errorText;
    ListModelsOfEntries(tagsBody, codec.loads, entries);
    assert GenerateContract(cfg, request, codec, Received(r), tags).outcome == ErrorReply(cfg, r, tags, codec, promptUsed);
  }

  lemma ListModelsOfEntries(tagsBody: string, loads: string -> Option<Json>, entries: seq<Json>)
    requires forall k :: 0 <= k < |entries| ==> entries[k].JObj?
    requires loads(tagsBody) == Some(JObj(map["models" := JArr(entries)]))
    ensures ListModels(Received(Response(200, tagsBody)), loads) == NamedEntries(entries)
  {
    assert DictGet(map["models" := JArr(entries)], "models") == Some(JArr(entries));
  }

  /** With every entry a plain, non-empty name, the diagnostic lists every model, in order. */
  lemma NotFoundListsEveryModel(cfg: OllamaSettings, request: Json, codec: JsonCodec,
                                errorBody: string, errorText: string, tagsBody: string, names: seq<string>)
    requires codec.loads(errorBody) == Some(JObj(map["error" := JStr(errorText)]))
    requires ModelNotFound(errorText)
    requires forall k :: 0 <= k < |names| ==> names[k] != []
    requires codec.loads(tagsBody) == Some(JObj(map["models" :=
      JArr(seq(|names|, k requires 0 <= k < |names| => JObj(map["name" := JStr(names[k])])))]))
    ensures GenerateContract(cfg, request, codec, Received(Response(404, errorBody)), Received(Response(200, tagsBody))).outcome
      == Diagnostic(NotFoundText(cfg.model, names), codec.dumps(request))
  {
    var entries := seq(|names|, k requires 0 <= k < |names| => JObj(map["name" := JStr(names[k])]));
    AllNamedEntriesKept(entries);
    NotFoundListsModels(cfg, request, codec, 404, errorBody, errorText, tagsBody, entries);
    var models := NamedEntries(entries);
    assert models == seq(|names|, k requires 0 <= k < |names| => JStr(names[k]));
    assert ModelNames(models).value == names;
  }

  /**
   * `generate_contract` is not total: a successful reply whose `response` is
   * a truthy non-string (here a non-zero number) makes `.strip()` raise
   * AttributeError, which nothing catches.
   */
  lemma NonStringResponseRaises(cfg: OllamaSettings, request: Json, codec: JsonCodec,
                                body: string, tags: HttpOutcome, n: int)
    requires n != 0
    requires codec.loads(body) == Some(JObj(map["response" := JNum(n)]))
    ensures GenerateContract(cfg, request, codec, Received(Response(200, body)), tags).outcome == Raised(AttributeError)
  {
    assert FieldText(map["response" := JNum(n)], "response") == Err(AttributeError);
  }
}
