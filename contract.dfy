/**
 * The two-field reply contract `{assistant_text, updated_user_description}`,
 * the HTTP outcomes the clients see, the requests they send, and the
 * normalisation of model output that both backends share.
 */
module ModelContract {
  import opened Wrappers
  import opened PyText
  import opened JsonValue
  import opened JsonExtract

  datatype Contract = Contract(assistantText: string, updatedUserDescription: string)

  /** The Python exceptions that can escape a client's `generate_contract`. */
  datatype PyException = AttributeError | TypeError | KeyError

  /** What `generate_contract` does: return `(contract, prompt_used)`, or raise. */
  datatype Outcome =
    | Returned(contract: Contract, promptUsed: string)
    | Raised(exception: PyException)

  datatype Response = Response(status: int, body: string)

  /** One `requests` call: it raised a `RequestException`, or a response came back. */
  datatype HttpOutcome = ConnectionError(detail: string) | Received(response: Response)

  /** The JSON bodies the clients post (sampling constants left out). */
  datatype Payload =
    | GeneratePayload(model: string, system: string, prompt: string)
    | ChatPayload(model: string, system: string, user: string, responseFormat: Json)

  datatype Call =
    | Post(url: string, headers: map<string, string>, payload: Payload)
    | Get(url: string)

  /** A client's result together with the requests it sent, in order. */
  datatype Exchange = Exchange(outcome: Outcome, calls: seq<Call>)

  const NoResponse := "(no response from model)"

  /** A diagnostic reply: the text for the user and no profile update. */
  function Diagnostic(text: string, promptUsed: string): (o: Outcome)
    ensures o.Returned? && o.contract.updatedUserDescription == ""
  {
    Returned(Contract(text, ""), promptUsed)
  }

  /**
   * `(d.get(key) or "").strip()` on a decoded dict: a missing or falsy value
   * gives `""`, a string gives its stripped text, and any other truthy value
   * has no `strip` and raises `AttributeError`.
   */
  function FieldText(fields: map<string, Json>, key: string): (r: Result<string, PyException>)
    ensures r.Ok? ==> Stripped(r.value)
    ensures r.Err? <==> key in fields && Truthy(fields[key]) && !fields[key].JStr?
    ensures r.Err? ==> r.error == AttributeError
    ensures key in fields && fields[key].JStr? ==> r == Ok(Strip(fields[key].s))
    ensures (key !in fields || !Truthy(fields[key])) ==> r == Ok("")
  {
    match DictGet(fields, key)
    case None => Ok("")
    case Some(v) =>
      if !Truthy(v) then Ok("")
      else if v.JStr? then StripFacts(v.s); Ok(Strip(v.s))
      else Err(AttributeError)
  }

  /**
   * The tail of both clients' `generate_contract`: a value that is not a dict
   * keeps the raw text as the reply (or the placeholder when it is empty) with
   * no profile update; a dict gives both fields stripped, with the placeholder
   * for an empty `assistant_text`.
   */
  function Normalize(text: string, parsed: Option<Json>): (r: Result<Contract, PyException>)
    ensures r.Ok? ==> r.value.assistantText != []
    ensures !(parsed.Some? && parsed.value.JObj?) ==>
      r == Ok(Contract(if text == [] then NoResponse else text, ""))
    ensures parsed.Some? && parsed.value.JObj? ==>
      var fields := parsed.value.fields;
      (r.Err? <==> FieldText(fields, "assistant_text").Err? || FieldText(fields, "updated_user_description").Err?)
      && (r.Ok? ==>
            && Stripped(r.value.assistantText)
            && r.value.updatedUserDescription == FieldText(fields, "updated_user_description").value
            && (FieldText(fields, "assistant_text").value != [] ==>
                  r.value.assistantText == FieldText(fields, "assistant_text").value)
            && (FieldText(fields, "assistant_text").value == [] ==> r.value.assistantText == NoResponse))
  {
    match parsed
    case Some(JObj(fields)) =>
      (match (FieldText(fields, "assistant_text"), FieldText(fields, "updated_user_description"))
       case (Ok(a), Ok(d)) => Ok(Contract(if a == [] then NoResponse else a, d))
       case (Err(e), _) => Err(e)
       case (_, Err(e)) => Err(e))
    case _ => Ok(Contract(if text == [] then NoResponse else text, ""))
  }

  /** Extract a JSON value from the model's text and normalise it. */
  function Interpret(text: string, loads: string -> Option<Json>): (r: Result<Contract, PyException>)
    ensures r.Ok? ==> r.value.assistantText != []
  {
    Normalize(text, ExtractJsonObject(text, loads))
  }

  /**
   * The contract round trip: a reply that is exactly a JSON object with the
   * two string fields yields those fields (stripped).
   */
  lemma ContractRoundTrip(text: string, answer: string, description: string, loads: string -> Option<Json>)
    requires Strip(text) != []
    requires loads(Strip(text)) == Some(JObj(map["assistant_text" := JStr(answer),
                                              "updated_user_description" := JStr(description)]))
    requires Strip(answer) != []
    ensures Interpret(text, loads) == Ok(Contract(Strip(answer), Strip(description)))
  {
    var fields := map["assistant_text" := JStr(answer), "updated_user_description" := JStr(description)];
    assert ExtractJsonObject(text, loads) == Some(JObj(fields));
    assert FieldText(fields, "assistant_text") == Ok(Strip(answer));
    assert FieldText(fields, "updated_user_description") == Ok(Strip(description));
  }
}
