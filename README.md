# ai-chat-bot core, modelled in Dafny

This project models the logic of the ai-chat-bot Telegram bot that sits beneath its I/O. There are four parts:

- **Event store and turn reconstruction** (`infra/db/sqlite.py`).
  - `SqliteStore.Store` is a class with one field per table: `chats`, `users`, `userStates` and the append-only `messages` log.
  - Each write is a method. Its contract gives the new table as a function of the old one. SQLite's `ON CONFLICT` upserts, the unique index on `update_id` and the foreign keys (enabled with `PRAGMA foreign_keys = ON`) are written out as results.
  - `FetchRecentEvents` (through `ReadRecentTurns`) reverses the query's rows in an array in place, then scans them in a loop (`PairTurns`) that keeps a pending prompt. It is proved equal to the pure specification `TurnReconstruction.RecentTurns`.
  - The lemmas about `RecentTurns` state how prompts pair with replies, which events are dropped, the window the query reads, and the cut to the last `limit_turns` turns.
- **Reply-contract normalisation** (`infra/llm/ollama_client.py`, `infra/llm/openai_compat_client.py`).
  - Each backend's `generate_contract` is a function. It maps the HTTP outcome (an input: a connection error, or a status and a body) to either a returned `(contract, prompt_used)` or a Python exception escaping the call (`Outcome.Raised`). It also records the requests that were sent.
  - `json.loads`, the two `json.dumps` layouts and Python's `str` of non-string values are uninterpreted parameters (`JsonCodec`). `dumps` is the indented `json.dumps(..., ensure_ascii=False, indent=2)` of the request. `dumpsCompact` is the one-line `json.dumps(..., ensure_ascii=False)` applied to a dict `content` and to an error body.
  - `_extract_json_object`, which both files define identically, is one shared model (`JsonExtract`). It includes the brace span selected by `\{.*\}` under DOTALL.
- **Backend dispatch** (`infra/llm/client_factory.py`). Proved to return the chosen implementation's result unchanged.
- **Prompt builder** (`app/prompting.py`). `build_prompt` is a method with the source's loop, proved equal to the specification `Prompting.Prompt`.

Helper modules:

- `Wrappers`: `Option`, `Result`, and `x or ""`.
- `PyText`: Python's `strip`, `rstrip`, `lower`, `in`, `join`, `str(int)` and slicing on `seq<char>`.
- `JsonValue`: decoded JSON values, truthiness and `dict.get`.

Three behaviours of the code that the model keeps as written:

- `fetch_recent_events` with `limit_turns = 0` returns every reconstructed turn, because `turns[-0:]` is the whole list. A negative `limit_turns` drops turns from the front, as Python slicing does.
- The Ollama client's `_extract_json_object` is declared to return a dict, but it returns whatever JSON value parses. The callers' `isinstance(parsed, dict)` test decides the outcome.
- `generate_contract` can raise. A reply field that is a truthy non-string has no `strip()`, and a model list with non-string names cannot be joined; nothing catches either error. `OllamaClient.NonStringResponseRaises` exhibits one such input.

## Model

| member | source | states |
|---|---|---|
| Wrappers.OrEmpty | src/ai_chat_bot/infra/db/sqlite.py:249 | `text or ""`: a present string is kept, a missing one becomes "" |
| PyText.TrimStartFacts | src/ai_chat_bot/infra/db/sqlite.py:248-249 | `lstrip()` removes exactly a leading run of whitespace and leaves a suffix that is empty or starts with a non-space |
| PyText.TrimEndFacts | src/ai_chat_bot/infra/db/sqlite.py:248-249 | `rstrip()` removes exactly a trailing run of whitespace; the result is empty exactly when the input is all whitespace |
| PyText.StripFacts | src/ai_chat_bot/infra/db/sqlite.py:248-249 | `strip()` returns a string with no outer whitespace, empty exactly when the input is all whitespace, and leaves already stripped strings unchanged |
| PyText.StripIdempotent | src/ai_chat_bot/infra/db/sqlite.py:248-249 | stripping twice is stripping once |
| PyText.StripIgnoresPadding | src/ai_chat_bot/infra/llm/client_factory.py:10 | whitespace added on either side never changes what `strip()` returns |
| PyText.TrimTrailing | src/ai_chat_bot/infra/llm/openai_compat_client.py:32 | `rstrip("/")` is a prefix followed only by slashes, and does not itself end in a slash |
| PyText.Lower | src/ai_chat_bot/infra/llm/client_factory.py:10 | `lower()` keeps the length and lower-cases each character |
| PyText.LowerCharKeepsSpace | src/ai_chat_bot/infra/llm/client_factory.py:10 | lower-casing never creates or removes whitespace |
| PyText.TrimStartLower | src/ai_chat_bot/infra/llm/client_factory.py:10 | `lstrip` and `lower` commute |
| PyText.TrimEndLower | src/ai_chat_bot/infra/llm/client_factory.py:10 | `rstrip` and `lower` commute |
| PyText.StripLowerCommute | src/ai_chat_bot/infra/llm/client_factory.py:10 | `s.strip().lower() == s.lower().strip()` |
| PyText.LowerIdempotent | src/ai_chat_bot/infra/llm/client_factory.py:10 | lower-casing twice is lower-casing once |
| PyText.TrimStartSkipsSpace | src/ai_chat_bot/infra/llm/client_factory.py:10 | leading whitespace never changes what `lstrip()` returns |
| PyText.TrimEndSkipsSpace | src/ai_chat_bot/infra/llm/client_factory.py:10 | trailing whitespace never changes what `rstrip()` returns |
| PyText.TrimStartAppend | src/ai_chat_bot/infra/llm/client_factory.py:10 | `lstrip()` of a string that is not all whitespace only touches that string, not what follows it |
| PyText.JoinStartsWithFirst | src/ai_chat_bot/app/prompting.py:21 | `"\n".join(lines)` begins with the first line |
| PyText.DigitChar | src/ai_chat_bot/infra/llm/ollama_client.py:101 | a digit becomes the character with that digit's value |
| PyText.Decimal | src/ai_chat_bot/infra/llm/ollama_client.py:101 | `str(status)` is a non-empty string of decimal digits with no leading zero unless the value is 0 |
| PyText.DecimalRoundTrip | src/ai_chat_bot/infra/llm/ollama_client.py:101 | reading back the digits of `str(n)` gives `n` |
| PyText.Take | src/ai_chat_bot/infra/llm/ollama_client.py:107 | `r.text[:200]` is the prefix of length `min(200, len)` |
| JsonValue.DictGet | src/ai_chat_bot/infra/llm/ollama_client.py:118-119 | `d.get(k)` is present exactly when the key is, and then holds its value |
| JsonValue.PyStr | src/ai_chat_bot/infra/llm/ollama_client.py:92 | `str(err)` of a decoded string is that string |
| JsonExtract.FirstIndex | src/ai_chat_bot/infra/llm/ollama_client.py:49 | the position of the first `{`, absent exactly when there is none |
| JsonExtract.LastIndex | src/ai_chat_bot/infra/llm/ollama_client.py:49 | the position of the last `}`, absent exactly when there is none |
| JsonExtract.BraceSpan | src/ai_chat_bot/infra/llm/ollama_client.py:49-51 | the regex `\{.*\}` with DOTALL matches exactly when some `{` has a `}` after it; the match is the outermost such span, from the first `{` to the last `}` |
| JsonExtract.BraceMatch | src/ai_chat_bot/infra/llm/ollama_client.py:49-53 | the matched text starts with `{` and ends with `}`, and is absent exactly when there is no span |
| JsonExtract.ExtractJsonObject | src/ai_chat_bot/infra/llm/ollama_client.py:36-55 | blank input gives None; a stripped text that parses is returned with no span search; otherwise the brace span is parsed, and the result is None when there is no span or the span does not parse |
| JsonExtract.EmbeddedObjectRecovered | src/ai_chat_bot/infra/llm/openai_compat_client.py:36-55 | an object surrounded by prose with no `{` before it and no `}` after it is recovered exactly |
| ModelContract.Diagnostic | src/ai_chat_bot/infra/llm/ollama_client.py:77-84 | every error reply carries an empty `updated_user_description` |
| ModelContract.FieldText | src/ai_chat_bot/infra/llm/ollama_client.py:118-119 | `(d.get(k) or "").strip()` is "" for a missing or falsy value and the stripped string for a string; any other truthy value raises AttributeError |
| ModelContract.Normalize | src/ai_chat_bot/infra/llm/ollama_client.py:114-127 | a parse that is not a dict keeps the raw text, or the placeholder when it is empty, with no description; a dict gives both fields stripped and the placeholder for an empty answer; `assistant_text` is never empty |
| ModelContract.Interpret | src/ai_chat_bot/infra/llm/ollama_client.py:111-127 | a reply that does not raise always has a non-empty `assistant_text` |
| ModelContract.ContractRoundTrip | src/ai_chat_bot/infra/llm/ollama_client.py:112-127 | a model reply that is exactly the two-field JSON object yields those two fields, stripped |
| OllamaClient.NamedEntries | src/ai_chat_bot/infra/llm/ollama_client.py:31 | the kept names are truthy, each comes from some entry's `name`, and there are no more of them than entries; every entry with a truthy `name` has that name kept |
| OllamaClient.NamedEntriesOne | src/ai_chat_bot/infra/llm/ollama_client.py:31 | one entry contributes its `name` exactly when that name is truthy |
| OllamaClient.NamedEntriesAppend | src/ai_chat_bot/infra/llm/ollama_client.py:31 | the comprehension keeps order: the names of two concatenated lists are the first list's names followed by the second's |
| OllamaClient.AllNamedEntriesKept | src/ai_chat_bot/infra/llm/ollama_client.py:31 | when every entry has a truthy name, all of them are kept, in order |
| OllamaClient.ListModels | src/ai_chat_bot/infra/llm/ollama_client.py:26-33 | a connection error, an error status or a body that is not a JSON dict gives `[]`; every name returned is truthy |
| OllamaClient.ModelNames | src/ai_chat_bot/infra/llm/ollama_client.py:96 | `", ".join(models)` succeeds exactly when every name is a string, and then joins those strings |
| OllamaClient.ErrorValue | src/ai_chat_bot/infra/llm/ollama_client.py:87-90 | the error is the body's `error` field when the body is a dict holding one, and otherwise the raw body text |
| OllamaClient.NotFoundText | src/ai_chat_bot/infra/llm/ollama_client.py:95-98 | the not-found diagnostic is never empty |
| OllamaClient.ErrorReply | src/ai_chat_bot/infra/llm/ollama_client.py:86-101 | a status of 400 or more gives a diagnostic with no description: the model-not-found text when the lower-cased error names both phrases, `Ollama error <status>: <err>` otherwise |
| OllamaClient.SuccessReply | src/ai_chat_bot/infra/llm/ollama_client.py:103-127 | a body that is not JSON gives the non-JSON diagnostic with the first 200 characters; a dict body's `response` is normalised; `assistant_text` is never empty |
| OllamaClient.GenerateContract | src/ai_chat_bot/infra/llm/ollama_client.py:58-127 | one POST always, plus the model-list GET exactly on a model-not-found error; a connection error gives its diagnostic; every return carries `prompt_used` and a non-empty answer; every error status returns an empty description |
| OllamaClient.ListModelsOfEntries | src/ai_chat_bot/infra/llm/ollama_client.py:26-31 | a successful `/api/tags` reply holding a list of model dicts gives exactly their kept names |
| OllamaClient.NotFoundListsModels | src/ai_chat_bot/infra/llm/ollama_client.py:86-99 | for any error status and any list of model entries, a not-found error gives the diagnostic naming the kept models in order, or raises TypeError when a kept name is not a string |
| OllamaClient.NotFoundListsEveryModel | src/ai_chat_bot/infra/llm/ollama_client.py:92-99 | a 404 not-found error with a list of plain, non-empty names gives the diagnostic listing every model, in order |
| OllamaClient.NonStringResponseRaises | src/ai_chat_bot/infra/llm/ollama_client.py:111 | a 2xx reply whose `response` is a non-zero number makes `generate_contract` raise AttributeError |
| OpenAICompatClient.ChatCompletionsUrl | src/ai_chat_bot/infra/llm/openai_compat_client.py:31-33 | the URL is the base with every trailing `/` removed, followed by `/chat/completions` |
| OpenAICompatClient.Headers | src/ai_chat_bot/infra/llm/openai_compat_client.py:81-86 | the content type is always present; `Authorization: Bearer <key>` is present exactly when the stripped key is non-empty; there are no other headers |
| OpenAICompatClient.ResponseFormatSchema | src/ai_chat_bot/infra/llm/openai_compat_client.py:58-78 | a strict JSON schema for an object whose properties are exactly the two contract fields, both strings, both required, with no additional properties |
| OpenAICompatClient.JsonObjectFormat | src/ai_chat_bot/infra/llm/openai_compat_client.py:189 | the retry's format is exactly `{"type": "json_object"}` |
| OpenAICompatClient.ParseChoiceContent | src/ai_chat_bot/infra/llm/openai_compat_client.py:106-133 | a non-dict body raises AttributeError; no truthy `choices` gives ""; a truthy dict `choices` raises KeyError, a string AttributeError, a number or boolean TypeError; a non-empty result is stripped text or a serialised dict |
| OpenAICompatClient.StandardChoiceContent | src/ai_chat_bot/infra/llm/openai_compat_client.py:109-122 | the standard `choices[0].message.content` string comes back stripped |
| OpenAICompatClient.ChoiceContentOrder | src/ai_chat_bot/infra/llm/openai_compat_client.py:116-133 | for any first choice: a falsy choice or `message` counts as `{}`, a non-dict one raises AttributeError; then a string content is stripped, a dict content serialised, otherwise a string `text` stripped, otherwise "" |
| OpenAICompatClient.CompletionsTextChoice | src/ai_chat_bot/infra/llm/openai_compat_client.py:119-131 | a completions-style `{"choices": [{"text": t}]}` with no `message` gives `t` stripped |
| OpenAICompatClient.Finish | src/ai_chat_bot/infra/llm/openai_compat_client.py:203-241 | a status of 400 or more gives `Remote LLM error <status>: <err>`; a non-JSON body gives its diagnostic; otherwise the choice content is extracted and normalised; `assistant_text` is never empty |
| OpenAICompatClient.GenerateContract | src/ai_chat_bot/infra/llm/openai_compat_client.py:136-241 | a blank key gives a diagnostic before any request; otherwise the first request uses the strict schema; there is at most one retry, sent exactly when the first status is 400 or more and the lower-cased error names a schema keyword, using `json_object`; a connection error on either request gives a diagnostic with no description |
| OpenAICompatClient.FinalErrorIsDiagnostic | src/ai_chat_bot/infra/llm/openai_compat_client.py:203-212 | a status still 400 or more after the optional retry gives the remote-error diagnostic for that last response |
| ClientFactory.GenerateContract | src/ai_chat_bot/infra/llm/client_factory.py:9-27 | "ollama" and "openai_compat" return that implementation's result unchanged; any other selector gives the unknown-backend diagnostic naming the raw setting, with the serialised request as `prompt_used` and no request sent |
| ClientFactory.SelectorIsNormalised | src/ai_chat_bot/infra/llm/client_factory.py:10 | the selector ignores surrounding whitespace and letter case |
| Prompting.ChatTypeLabel | src/ai_chat_bot/app/prompting.py:13 | `chat_type or 'unknown'`: "unknown" exactly when the chat type is None or empty |
| Prompting.TranscriptLinesShape | src/ai_chat_bot/app/prompting.py:16-19 | each history pair becomes the line `User: u` and then `Assistant: a`, in history order, two lines per pair |
| Prompting.TranscriptEmptyIff | src/ai_chat_bot/app/prompting.py:21-23 | the transcript section is empty exactly when the history is; otherwise it is the heading, the joined lines with trailing whitespace removed, and a newline |
| Prompting.BuildPrompt | src/ai_chat_bot/app/prompting.py:1-27 | the loop builds exactly `system + "\n" + header + "\n" + transcript + new_msg` |
| Prompting.PromptStartsWithRules | src/ai_chat_bot/app/prompting.py:6-11 | the fixed rules always open the prompt |
| Prompting.PromptEndsWithNewMessage | src/ai_chat_bot/app/prompting.py:25-27 | the prompt always ends with `User: <user_text>\nAssistant:` |
| TurnReconstruction.Events | src/ai_chat_bot/infra/db/sqlite.py:247-250 | one event per fetched row |
| TurnReconstruction.EventsPointwise | src/ai_chat_bot/infra/db/sqlite.py:247-250 | event `k` is row `k`'s stripped role class, stripped text and `created_at` |
| TurnReconstruction.EventsSnoc | src/ai_chat_bot/infra/db/sqlite.py:247-250 | a row appended to the window appends its event |
| TurnReconstruction.TimestampOf | src/ai_chat_bot/infra/db/sqlite.py:263 | `pending_ts or ts`: the prompt's time unless it is empty, then the reply's |
| TurnReconstruction.Step | src/ai_chat_bot/infra/db/sqlite.py:255-269 | a user event replaces the pending prompt; an assistant event with a pending prompt closes a turn and clears it; an assistant event without one, and any other role, change nothing |
| TurnReconstruction.ScanSnoc | src/ai_chat_bot/infra/db/sqlite.py:247-269 | scanning one more event is one more step |
| TurnReconstruction.ScanRowCases | src/ai_chat_bot/infra/db/sqlite.py:247-269 | one loop iteration on a row, by its stripped role |
| TurnReconstruction.TrackPending | src/ai_chat_bot/infra/db/sqlite.py:255-269 | the pending prompt is exactly the user event with only other roles after it |
| TurnReconstruction.TrackSound | src/ai_chat_bot/infra/db/sqlite.py:255-269 | every recorded pair is a user event answered by the next assistant event with no user event in between; pairs are in order and do not overlap |
| TurnReconstruction.TrackComplete | src/ai_chat_bot/infra/db/sqlite.py:255-269 | every such answered user event is recorded |
| TurnReconstruction.ScanFollowsTrack | src/ai_chat_bot/infra/db/sqlite.py:243-269 | the scan's turns are the turns of the recorded pairs, and its pending state is the pending event's text and time |
| TurnReconstruction.ReconstructionCorrect | src/ai_chat_bot/infra/db/sqlite.py:241-269 | the turns are exactly the answered user events with their answers, oldest to newest, each turn holding its prompt's and its reply's text |
| TurnReconstruction.OverwrittenUserDropped | src/ai_chat_bot/infra/db/sqlite.py:255-257 | a user event followed by another user event before any reply produces no turn |
| TurnReconstruction.TrailingUserDropped | src/ai_chat_bot/infra/db/sqlite.py:243-269 | a trailing unanswered user event produces no turn |
| TurnReconstruction.AnsweredOnlyWhenPending | src/ai_chat_bot/infra/db/sqlite.py:258-260 | a turn is closed only by a reply that arrives while its prompt is pending |
| TurnReconstruction.UnpromptedAssistantDropped | src/ai_chat_bot/infra/db/sqlite.py:258-260 | an assistant event with no pending user event produces no turn |
| TurnReconstruction.ChatRows | src/ai_chat_bot/infra/db/sqlite.py:233 | `WHERE chat_telegram_id = ?` keeps only that chat's rows |
| TurnReconstruction.ChatRowsKeepsExactlyChat | src/ai_chat_bot/infra/db/sqlite.py:233 | a row is kept exactly when it is in the log and belongs to the chat |
| TurnReconstruction.ChatRowsAppend | src/ai_chat_bot/infra/db/sqlite.py:233-234 | filtering keeps log order: the chat rows of a concatenation are the concatenated chat rows |
| TurnReconstruction.WindowSize | src/ai_chat_bot/infra/db/sqlite.py:237 | the query limit is `max(20, 4 * limit_turns)` |
| TurnReconstruction.LastN | src/ai_chat_bot/infra/db/sqlite.py:234-235 | the last `n` elements, or all of them when there are fewer |
| TurnReconstruction.Reverse | src/ai_chat_bot/infra/db/sqlite.py:241 | the elements in reverse order |
| TurnReconstruction.ReverseInvolution | src/ai_chat_bot/infra/db/sqlite.py:234-241 | reversing the newest-first rows restores chronological order |
| TurnReconstruction.PySliceFrom | src/ai_chat_bot/infra/db/sqlite.py:273 | Python's `s[start:]` for any integer `start`, negative counting from the end |
| TurnReconstruction.KeepRecent | src/ai_chat_bot/infra/db/sqlite.py:271-273 | for `limit_turns >= 1`, at most `limit_turns` turns, the most recent ones; `limit_turns = 0` keeps every turn |
| TurnReconstruction.KeepRecentKeepsNewest | src/ai_chat_bot/infra/db/sqlite.py:271-273 | the cut always keeps the newest turn |
| TurnReconstruction.WindowIsChatTail | src/ai_chat_bot/infra/db/sqlite.py:229-241 | the scanned rows are the chat's last `max(20, 4 * limit_turns)` rows, oldest first, all of that chat |
| TurnReconstruction.ChatRowsIdsBelow | src/ai_chat_bot/infra/db/sqlite.py:233 | filtering by chat keeps any upper bound on the ids |
| TurnReconstruction.ChatRowsIdsIncrease | src/ai_chat_bot/infra/db/sqlite.py:233-234 | filtering by chat keeps ids increasing |
| TurnReconstruction.QueryIdsDecrease | src/ai_chat_bot/infra/db/sqlite.py:234 | the query returns rows in strictly decreasing id order |
| TurnReconstruction.TailIdsIncrease | src/ai_chat_bot/infra/db/sqlite.py:234-235 | the newest rows of a log with growing ids still have growing ids |
| TurnReconstruction.ReverseIdsDecrease | src/ai_chat_bot/infra/db/sqlite.py:234 | reversing rows with growing ids gives strictly decreasing ids |
| TurnReconstruction.QueryLength | src/ai_chat_bot/infra/db/sqlite.py:235-237 | the query returns `limit` rows, or all of the chat's rows when there are fewer |
| TurnReconstruction.QuerySkipsOnlyOlder | src/ai_chat_bot/infra/db/sqlite.py:229-239 | the query reads the newest end of the chat's rows; every row it skips is older than every row it reads |
| TurnReconstruction.ReversedTailIsNewer | src/ai_chat_bot/infra/db/sqlite.py:234-235 | rows before the newest `m` are older than each of them |
| TurnReconstruction.ChatRowsIdempotent | src/ai_chat_bot/infra/db/sqlite.py:233 | filtering by chat twice is filtering once |
| TurnReconstruction.OnlyChatRowsMatter | src/ai_chat_bot/infra/db/sqlite.py:233 | the turns depend only on that chat's rows |
| TurnReconstruction.OtherChatAppendIgnored | src/ai_chat_bot/infra/db/sqlite.py:233 | a row logged for another chat never changes a chat's turns |
| TurnReconstruction.RecentTurnsReadChatTail | src/ai_chat_bot/infra/db/sqlite.py:229-273 | the result is the cut of the scan of the chat's last `max(20, 4 * limit_turns)` rows |
| TurnReconstruction.ChatRowsAppendTwo | src/ai_chat_bot/infra/db/sqlite.py:233 | two rows of the chat appended to the log are appended to the chat's rows |
| TurnReconstruction.LastNEndsWithTwo | src/ai_chat_bot/infra/db/sqlite.py:235-237 | a window of 20 or more rows ending in two new rows ends with those two |
| TurnReconstruction.ScanAppendPair | src/ai_chat_bot/infra/db/sqlite.py:255-269 | a user event and then an assistant event add their turn, whatever came before |
| TurnReconstruction.EventsAppendTwo | src/ai_chat_bot/infra/db/sqlite.py:247-250 | two appended rows append their two events |
| TurnReconstruction.RecentTurnsAfterAppend | src/ai_chat_bot/infra/db/sqlite.py:229-273 | after a prompt and a reply are logged in one chat, the window is the tail of that chat's rows plus the two |
| TurnReconstruction.WindowEndingInPair | src/ai_chat_bot/infra/db/sqlite.py:247-269 | a window ending in a user row and then an assistant row yields their turn last |
| TurnReconstruction.ReplyAfterPromptIsNewestTurn | src/ai_chat_bot/infra/db/sqlite.py:220-275 | for `limit_turns >= 1`, a prompt followed directly by its reply in the same chat is the newest turn returned |
| SqliteStore.BotFlagValue | src/ai_chat_bot/infra/db/sqlite.py:125-129 | `None` stays `None`; `True`/`False` become 1/0; an int is kept |
| SqliteStore.InsertRow | src/ai_chat_bot/infra/db/sqlite.py:189-217 | a taken non-null `update_id` is refused by the unique index; otherwise an unknown chat or sender is refused by the foreign keys; a refusal leaves the log unchanged; success appends exactly one row with the next id |
| SqliteStore.InsertKeepsLogWellFormed | src/ai_chat_bot/infra/db/sqlite.py:67-93 | inserting keeps rowids sequential, non-null update ids unique and the foreign keys satisfied |
| SqliteStore.DuplicateUpdateIdRejected | src/ai_chat_bot/infra/db/sqlite.py:93 | a second insert with the same non-null `update_id` is refused and leaves the log unchanged |
| SqliteStore.NullUpdateIdNeverConflicts | src/ai_chat_bot/infra/db/sqlite.py:93 | a NULL `update_id` never clashes on the unique index; with valid foreign keys the insert commits |
| SqliteStore.StoredExchangeIsNewestTurn | src/ai_chat_bot/infra/db/sqlite.py:189-275 | storing a user message and then the reply makes that exchange the newest turn returned, with stripped texts and the prompt's timestamp |
| SqliteStore.IdsFollowLog | src/ai_chat_bot/infra/db/sqlite.py:68 | in a well-formed log, ids grow along the log, so `ORDER BY id` is log order |
| SqliteStore.ReadDescription | src/ai_chat_bot/infra/db/sqlite.py:149-171 | an existing row returns its text and is unchanged; a missing row is created empty and "" returned; an unknown user is refused by the foreign key |
| SqliteStore.WriteDescription | src/ai_chat_bot/infra/db/sqlite.py:174-186 | the upsert stores `user_description or ""`, keeping `created_at` of an existing row; an unknown user is refused |
| SqliteStore.ReadIdempotent | src/ai_chat_bot/infra/db/sqlite.py:149-171 | a second read returns the same text and changes nothing |
| SqliteStore.ReadReturnsStoredOrEmpty | src/ai_chat_bot/infra/db/sqlite.py:157-171 | a read returns the stored text, or "" when there was none |
| SqliteStore.WriteThenRead | src/ai_chat_bot/infra/db/sqlite.py:174-186 | after a committed write, a read returns `d or ""` |
| SqliteStore.OtherUsersUntouched | src/ai_chat_bot/infra/db/sqlite.py:162-186 | reads and writes for one user leave every other user's row unchanged |
| SqliteStore.ReverseInPlace | src/ai_chat_bot/infra/db/sqlite.py:241 | `rows.reverse()` leaves the array holding its old contents reversed |
| SqliteStore.Store.constructor | src/ai_chat_bot/infra/db/sqlite.py:44-98 | a fresh database has empty tables and satisfies the schema's constraints |
| SqliteStore.Store.UpsertChat | src/ai_chat_bot/infra/db/sqlite.py:101-114 | inserts the chat or overwrites its type, title and `modified_at`, keeping `created_at`; other tables unchanged |
| SqliteStore.Store.UpsertTelegramUser | src/ai_chat_bot/infra/db/sqlite.py:117-146 | the same upsert on users, with `is_bot` stored as an integer; other tables unchanged |
| SqliteStore.Store.GetUserDescription | src/ai_chat_bot/infra/db/sqlite.py:149-171 | result and new `user_state` table as `ReadDescription` gives them; constraints kept |
| SqliteStore.Store.UpdateUserDescription | src/ai_chat_bot/infra/db/sqlite.py:174-186 | status and new `user_state` table as `WriteDescription` gives them; constraints kept |
| SqliteStore.Store.InsertMessage | src/ai_chat_bot/infra/db/sqlite.py:189-217 | status and new log as `InsertRow` gives them; constraints kept |
| SqliteStore.PairTurns | src/ai_chat_bot/infra/db/sqlite.py:243-269 | the pairing loop over the chronological rows, with its pending prompt and timestamp, returns exactly the turns of the pure scan `Scan(Events(rows))` |
| SqliteStore.ReadRecentTurns | src/ai_chat_bot/infra/db/sqlite.py:228-275 | over any message log, the query, the in-place reversal, the pairing loop and the `turns[-limit_turns:]` cut return exactly `RecentTurns` of the log |
| SqliteStore.Store.FetchRecentEvents | src/ai_chat_bot/infra/db/sqlite.py:220-275 | on a store that keeps the schema's constraints, `fetch_recent_events` returns exactly `RecentTurns` of the stored log |

## Left out

- JSON grammar: `json.loads`, both `json.dumps` layouts (indented for `prompt_used`, compact for a dict `content` and an error body) and Python's `str` of a decoded non-string value are uninterpreted parameters. Only the brace-span selection is concrete.
- JSON numbers are integers. Floating-point values are not modelled.
- `lower()` is modelled on ASCII letters only; Python also lower-cases other Unicode letters. The only non-ASCII characters Python lower-cases to ASCII letters are the Kelvin sign (to `k`) and the dotted capital I (to `i` and a combining dot), so the modelled keyword tests can differ from the source only on text containing those two characters.
- Network I/O: `requests` sessions, timeouts and the text of the caught exception `{e}` are inputs. A connection error carries its message as an opaque string.
- HTTP statuses and bodies are inputs. `raise_for_status` is taken to raise for statuses 400 to 599.
- Constant payload fields: `stream`, `format`, `options`, `temperature` and the token limits are not in the modelled payloads.
- Settings are parameters: the URLs, model names and API key. This includes `LLM_BACKEND` and `OPENAI_COMPAT_*`, which the shown `Settings` class does not define.
- `load_system_rules()` reads a file, so the system rules text is a settings parameter.
- `build_llm_request` is not part of this model. It is imported elsewhere but not defined in `prompting.py`.
- SQLite connection handling, the PRAGMAs, WAL mode and commits are not modelled. Each statement is atomic, as in autocommit.
- `CURRENT_TIMESTAMP` is the `now` parameter of each write.
- The tables' surrogate `id` columns of `chat`, `telegram_user` and `user_state` are not modelled. Those tables are maps keyed by their Telegram id.
- The `message` id is the row's 1-based position: rows are never deleted.
- The SQL query of `fetch_recent_events` is the function `QueryRecentDesc`, not an executed statement.
- `telegram_date` is stored but its only use in `fetch_recent_events` is a no-op branch.
- `get_user_description`: the NULL check on the stored description is not modelled because the column is NOT NULL.
- The lazy insert for a user with no `telegram_user` row fails on the foreign key and raises `IntegrityError`; it is modelled as `Err(ForeignKey)`.
- The IntegrityError propagates to the caller as an exception in the source. The model returns it as a status.
- Logging is not modelled.
- The Telegram adapter, the graph wiring, configuration loading and process start-up are not part of this model.
