# Human hand-off for coding agents: a Dafny model

The system lets a coding agent escalate a question to a human. The agent calls
the MCP tool `ask_question`. The server stores the question in an in-memory
registry, sends a Pushover notification with a link to a review form, and
returns poll metadata. The agent then polls the `get_reply` resource until the
question is answered or has expired. A question that nobody answers before its
deadline is settled with a fallback reply. Expiry is lazy: it is applied by
whichever read or write touches the record after its deadline.

This project models:

- the question lifecycle registry (`server/utility/context_manager.py`);
- the rules around it:
  - the API-key gate, the review URL and the environment parsing (`server/utility/config.py`);
  - the two MCP entry points (`server/tools/ask_question.py`, `server/tools/get_reply.py`);
  - the poll metadata (`server/tools/polling.py`);
  - the notification text (`server/utility/pushover.py`);
  - the decision logic of the human review page (`server/flask_server.py`);
- two older variants:
  - the REST server with its periodic sweep (`feedback_server.py`);
  - the stdio JSON-RPC dispatcher (`mcp_server.py`).

Files, one Dafny module each:

| file | module | models |
|---|---|---|
| `wrappers.dfy` | `Wrappers` | `Option`, `Result` and the Python exceptions that escape the tools |
| `text.dfy` | `Text` | `str.strip()`, `str.rstrip(c)`, `join`, `str(int)`, `int(str)`, `a or b` on optional strings |
| `json.dfy` | `Json` | JSON values, `str(v)`, `type(v).__name__`, `dict.get` |
| `config.dfy` | `Config` | `server/utility/config.py` |
| `context_manager.dfy` | `ContextManager` | `server/utility/context_manager.py` |
| `polling.dfy` | `Polling` | `server/tools/polling.py` |
| `pushover.dfy` | `Pushover` | `server/utility/pushover.py` |
| `ask_question.dfy` | `AskQuestion` | `server/tools/ask_question.py` |
| `get_reply.dfy` | `GetReply` | `server/tools/get_reply.py` |
| `flask_server.dfy` | `FlaskServer` | `server/flask_server.py`, the `answer_question` route |
| `feedback_server.dfy` | `Feedback` | `feedback_server.py` |
| `mcp_server.dfy` | `Mcp` | `mcp_server.py` |

How the model is built:

- A record's contents are the datatype `RecordValue`. Its status, the two
  first-write-wins mutations, the lazy TTL step and the answer step are pure
  functions on it.
- `QuestionRecord` and `QuestionContextManager` are classes, because the
  source hands records out by reference and mutates them in place. Each
  method's postcondition ties the new record contents to one of those
  functions of the old contents.
- Each locked section is one atomic method. Time is an integer number of
  seconds, passed in as `now`. The random question id and auth key are
  parameters. The outcome of the notification POST is the boolean
  `postSucceeds`.

Points of the code worth knowing, which the model keeps as written:

- `purge_question` removes any id, pending or not (`ContextManager.QuestionContextManager.PurgeQuestion`).
- The `get_reply` handler of `feedback_server.py` reads the stored flags
  with no TTL step; only the periodic sweep expires questions there
  (`Feedback.FeedbackServer.GetReply`).
- The bullet in `_format_options` is the three characters U+00E2 U+20AC U+00A2
  followed by a space, as the source file spells it. It is not the U+2022 the
  text evidently means.

## Model

| member | source | states |
|---|---|---|
| ContextManager.RecordValue.Status | server/utility/context_manager.py:44-51 | expired iff the flag is set or (no answer and the deadline is reached); answered iff not flagged and an answer exists, even past the deadline; pending iff neither flag nor answer and the deadline is not reached |
| ContextManager.ExpiryIsInclusive | server/utility/context_manager.py:39-41 | `has_expired` holds at `created_at + ttl` and not one second earlier, and stays true as time advances |
| ContextManager.NewRecordIsPending | server/utility/context_manager.py:90-96 | a new record is coherent and pending exactly while `now < created_at + ttl` |
| ContextManager.RecordValue.MarkedAnswer | server/utility/context_manager.py:53-57 | the result is answered, keeps the expired flag, only advances the record and keeps it coherent |
| ContextManager.RecordValue.MarkedExpired | server/utility/context_manager.py:59-64 | the result is answered, only advances the record and keeps it coherent |
| ContextManager.RecordValue.TtlApplied | server/utility/context_manager.py:117-125 | at or past the deadline the result is closed; before it the record is unchanged; the record only advances and stays coherent |
| ContextManager.RecordValue.AnswerApplied | server/utility/context_manager.py:127-141 | the result is always closed; a closed record is unchanged; the record only advances and stays coherent |
| ContextManager.MarkAnswerFirstWriteWins | server/utility/context_manager.py:53-57 | an answered record is unchanged; otherwise answer and `answered_at` are set; `expired` is never touched; the record only advances |
| ContextManager.MarkAnswerTwice | server/utility/context_manager.py:53-57 | a second `mark_answer` never replaces the first answer |
| ContextManager.MarkExpiredSetsAllThree | server/utility/context_manager.py:59-64 | no-op on an answered record; otherwise the fallback answer, the timestamp and the flag are set together |
| ContextManager.OperationsKeepCoherence | server/utility/context_manager.py:53-64 | every mutation keeps the invariant "answer iff timestamp, and expired only with an answer" |
| ContextManager.TtlStateChangesOnlyOverdueOpenRecords | server/utility/context_manager.py:117-125 | only an open record past its deadline changes, and it becomes expired with the fallback answer stamped `now` |
| ContextManager.TtlStateIdempotent | server/utility/context_manager.py:117-125 | applying the TTL step twice at one instant equals applying it once |
| ContextManager.TtlStatePastDeadline | server/utility/context_manager.py:117-125 | past the deadline no record is pending after the TTL step, and an open one is expired |
| ContextManager.AnswerOutcome | server/utility/context_manager.py:127-141 | a closed record is unchanged; an open one before its deadline takes the human answer; an open one past it takes the fallback and the flag; the result is always closed |
| ContextManager.RaceSettlesOnce | server/utility/context_manager.py:127-156 | a lazy-expiry read and an answer, in either order with a monotone clock, settle answer and flag the same way, decided by when the answer arrived |
| ContextManager.ClosedRecordIsFinal | server/utility/context_manager.py:127-156 | once answered or expired, no sequence of answer or read calls changes a record |
| ContextManager.FirstClosingCallDecides | server/utility/context_manager.py:127-156 | after any call sequence, the stored answer is the first closing call's: the human answer if it came before the deadline, else the fallback |
| ContextManager.EffectiveTtl | server/utility/context_manager.py:95 | `ttl_seconds or default`: None and 0 select the default, any other value is kept |
| ContextManager.QuestionRecord.constructor | server/utility/context_manager.py:23-35 | a new record has no answer, no timestamp and is not expired |
| ContextManager.QuestionRecord.MarkAnswer | server/utility/context_manager.py:53-57 | the record's new contents are the old contents after the first-write-wins answer |
| ContextManager.QuestionRecord.MarkExpired | server/utility/context_manager.py:59-64 | the record's new contents are the old contents after `mark_expired` |
| ContextManager.QuestionContextManager.constructor | server/utility/context_manager.py:70-73 | an empty registry with the given default TTL |
| ContextManager.QuestionContextManager.SetDefaultTtl | server/utility/context_manager.py:79-80 | the default TTL becomes the argument, nothing else changes |
| ContextManager.QuestionContextManager.CreateQuestion | server/utility/context_manager.py:82-99 | exactly one key is added or replaced, mapped to a fresh record, pending while `now < created_at + ttl`, with the presets (None as empty) and the effective TTL (a negative TTL gives a record expired at once); every other entry is unchanged |
| ContextManager.QuestionContextManager.GetQuestion | server/utility/context_manager.py:101-103 | Some exactly when the id is stored, and then the stored record |
| ContextManager.QuestionContextManager.RequireQuestion | server/utility/context_manager.py:105-109 | Ok with the stored record iff the id is stored, else NotFound for that id |
| ContextManager.QuestionContextManager.RequireAuthorizedQuestion | server/utility/context_manager.py:111-115 | NotFound iff the id is absent; AccessDenied iff it is present with a different key; Ok with the record iff the key is equal |
| ContextManager.QuestionContextManager.EnsureTtlState | server/utility/context_manager.py:117-125 | the record's new contents are the TTL step applied to the old |
| ContextManager.QuestionContextManager.AnswerQuestion | server/utility/context_manager.py:127-141 | the result is the authorisation outcome; on success the record becomes the answer step of its old contents; no other record, and on failure no record, changes |
| ContextManager.QuestionContextManager.GetAuthorizedQuestionWithTtl | server/utility/context_manager.py:143-156 | the result is the authorisation outcome; on success the record becomes the TTL step of its old contents; nothing else changes |
| ContextManager.QuestionContextManager.PurgeQuestion | server/utility/context_manager.py:158-160 | removes that id only; an absent id leaves the registry as it was |
| Config.IntSetting | server/utility/config.py:47-70 | an unset variable gives the default; a value `int()` accepts gives that integer; any other value gives the default |
| Config.GetConfig | server/utility/config.py:38-87 | each of the twelve fields is its variable or default; `server_url` is `SERVER_URL` with trailing '/' removed and never ends in '/' |
| Config.EmptyEnvironmentDefaults | server/utility/config.py:14-87 | with no variables set, every one of the twelve settings is its documented default |
| Config.ServerUrlTrailingSlashes | server/utility/config.py:43 | any number of trailing slashes is dropped, and a URL without one is kept as it is |
| Config.ExtractHeader | server/utility/config.py:103-115 | a value only for a mapping that holds the name; None for missing headers, a failing `.get` or no `.get` |
| Config.ExtractApiKeyFromContext | server/utility/config.py:118-140 | None when context, request context, request or headers are missing; otherwise "X-API-Key" if non-empty, else "x-api-key" |
| Config.ExtractApiKeyExamples | test/test_utility.py:95-102 | the fixture's header is found, empty headers give None, and the lower-case spelling is the fallback |
| Config.BuildReviewUrl | server/utility/config.py:96-100 | the review URL is the server URL followed by the route path `/answer_question/<key>/<id>` |
| Config.RequireApiKey | server/utility/config.py:143-154 | never fails with an empty configured key; otherwise succeeds iff the candidate equals the key exactly; the failure carries the source's message |
| Config.ProvidedKeyTakesPrecedence | server/utility/config.py:152 | a non-empty explicit key decides alone, whatever the context holds |
| Polling.PollInstructions | server/tools/polling.py:5-15 | the template with the interval substituted, which contains "{n} seconds" |
| Polling.BuildPollMetadata | server/tools/polling.py:10-18 | exactly four keys: the interval, the instructions, "get_reply" and the resource template |
| Polling.PollMetadataDeterminesInterval | server/tools/polling.py:14 | equal metadata means equal intervals |
| Polling.PollInstructionsNameInterval | server/tools/polling.py:5-15 | the digits between the template's two halves are the interval, and `int()` gives it back |
| Pushover.OptionItems | server/utility/pushover.py:19 | the comprehension keeps at most one item per option |
| Pushover.KeptOptionIsStripped | server/utility/pushover.py:19 | an option is dropped iff it strips to nothing, and otherwise kept stripped and clean |
| Pushover.OptionItemsAreClean | server/utility/pushover.py:19 | every kept item is non-empty with no surrounding whitespace |
| Pushover.OptionItemsAppend | server/utility/pushover.py:19 | filtering distributes over concatenation, so kept items keep their order |
| Pushover.OptionItemsOfClean | server/utility/pushover.py:19 | clean options pass through unchanged |
| Pushover.OptionItemsMembership | server/utility/pushover.py:19 | an item is shown iff it is what the filter keeps of some option |
| Pushover.FormatOptions | server/utility/pushover.py:18-23 | "" iff no option survives, otherwise a block starting with "Options:\n" |
| Pushover.FormatOptionsShowsEveryItem | server/utility/pushover.py:22-23 | every kept item appears in the block behind the bullet |
| Pushover.Message | server/utility/pushover.py:34-42 | the question alone without options, else question, "\n\n" and the block |
| Pushover.SingleOptionMessage | server/utility/pushover.py:18-42 | one clean option gives question, blank line, header and one bullet line |
| Pushover.NotificationPayload | server/utility/pushover.py:39-46 | exactly the six form fields, token and user copied, the message, the fixed titles and the review URL |
| Pushover.SendQuestionNotification | server/utility/pushover.py:26-55 | missing token or user: nothing sent and False; otherwise the payload is posted and the result is the post's success |
| Pushover.NotificationLinksToReview | server/utility/pushover.py:33-44 | the posted URL is `server_url/answer_question/<key>/<id>` and the message contains the question |
| AskQuestion.Sanitized | server/tools/ask_question.py:18-26 | the sanitised list keeps at most one preset per entry |
| AskQuestion.SanitizeEntry | server/tools/ask_question.py:21-25 | None keeps nothing; text keeps what the option filter keeps |
| AskQuestion.SanitizePresetAnswers | server/tools/ask_question.py:18-26 | the loop's list is the entry-by-entry sanitised list, None counting as empty |
| AskQuestion.SanitizedIsClean | server/tools/ask_question.py:21-25 | every kept preset is non-empty and stripped |
| AskQuestion.SanitizedAppend | server/tools/ask_question.py:20-25 | sanitising distributes over concatenation, so order is preserved |
| AskQuestion.SanitizedAgreesWithOptionItems | server/tools/ask_question.py:18-26 | on strings the sanitiser keeps exactly what the notification's option filter keeps |
| AskQuestion.SanitizeIdempotent | server/tools/ask_question.py:18-26 | sanitising a sanitised list changes nothing |
| AskQuestion.NotificationListsStoredPresets | server/tools/ask_question.py:45 | the notification shows the stored presets as stored, and no block iff there are none |
| AskQuestion.AskResult | server/tools/ask_question.py:56-64 | the poll metadata plus question id, auth key, "pending" and `expires_in_seconds == ttl` |
| AskQuestion.AskQuestion | server/tools/ask_question.py:29-64 | bad key: PermissionError, registry unchanged (even for an empty question); blank question: ValueError, unchanged; else one fresh record with the stripped text, the sanitised presets and the configured TTL, and the result for it, whatever the notification returned; the notification is the one for the created record, and a rejected ask sends none |
| AskQuestion.CreatedQuestionIsPending | server/tools/ask_question.py:43-63 | the new question is pending exactly until its deadline and the result reports its TTL |
| GetReply.PendingPayload | server/tools/get_reply.py:22-27 | `answered` False, `status` "pending", plus every poll-metadata key |
| GetReply.ShownAnswer | server/tools/get_reply.py:63 | `answer or fallback`: a missing or empty answer shows the fallback |
| GetReply.FinalPayload | server/tools/get_reply.py:60-64 | exactly `answered` True, the status name and `reply.answer` |
| GetReply.ReplyFor | server/tools/get_reply.py:54-65 | pending gives the pending payload and no reply; any other status gives `answered` True, its name and the shown answer |
| GetReply.GetReply | server/tools/get_reply.py:30-67 | the API key is checked first; NotFound becomes KeyError, AccessDenied PermissionError, and neither changes a record; a passing key with a stored id and its own key always succeeds; on success the TTL step is applied and the reply is for the new state |
| GetReply.OverdueQuestionReportsFallback | server/tools/get_reply.py:42-55 | an open question read at its deadline or later reports "expired" with the fallback |
| GetReply.AnsweredQuestionReportsAnswer | server/tools/get_reply.py:54-65 | an answer given in time is reported as answered with that answer at any later read |
| GetReply.OpenQuestionReportsPending | server/tools/get_reply.py:57-58 | before the deadline an open question gets the pending payload |
| FlaskServer.SlashIndex | server/flask_server.py:33 | the first '/' or the length, with no '/' before it |
| FlaskServer.MatchAnswerRoute | server/flask_server.py:33 | a match yields two '/'-free non-empty segments whose route path is the input |
| FlaskServer.RouteRoundTrip | server/flask_server.py:33 | the route gives back exactly the key and id the review URL was built from |
| FlaskServer.ChooseAnswer | server/flask_server.py:61-69 | a non-blank custom answer wins, stripped; else a non-empty selected preset; none iff neither |
| FlaskServer.AnswerQuestionPage | server/flask_server.py:34-92 | lookup failure: 404, nothing changes; expired after the TTL step: notice, no answer call; GET: form; POST without a choice: error, record after the TTL step only; POST with one: the answer step with the stripped choice; the form is only ever shown for a pending or answered question, and after a submission always as answered |
| FlaskServer.CustomAnswerWins | server/flask_server.py:62-80 | a non-blank custom answer is chosen over any preset and stored stripped |
| FlaskServer.SecondSubmissionKeepsAnswer | server/flask_server.py:77-84 | a POST on an answered record leaves the stored answer unchanged |
| FlaskServer.SubmissionOnLiveQuestionIsAnswered | server/flask_server.py:77-84 | a submission on a question that is not expired always leaves it answered, with the new or the earlier answer |
| FlaskServer.WhitespacePresetStoresEmptyAnswer | server/flask_server.py:66-80 | any non-empty whitespace-only selected preset, with no usable custom answer, passes the guard and is stored as "", which counts as answered |
| Feedback.Swept | feedback_server.py:62-78 | the store after one pass keeps a subset of the ids |
| Feedback.SweepExpiresOverdue | feedback_server.py:62-71 | an unanswered question strictly older than its TTL is kept, marked expired and answered, with the fallback reply carrying `expired: true` |
| Feedback.SweepDeletesExactlyStale | feedback_server.py:72-78 | an id is deleted iff its question was answered and strictly older than twice its TTL at the start of the pass |
| Feedback.SweepKeepsTheRest | feedback_server.py:62-78 | every other question is kept unchanged |
| Feedback.SweepKeepsAnswers | feedback_server.py:62-78 | a pass never changes a recorded reply |
| Feedback.SecondPassDeletesExpired | feedback_server.py:62-78 | a question expired by one pass survives it and is deleted by a later pass past twice its TTL |
| Feedback.FeedbackServer.CleanupExpiredQuestions | feedback_server.py:59-78 | the two loops leave the store equal to `Swept` of the old store |
| Feedback.ValidateAsk | feedback_server.py:121-174 | accepted iff the body is a dict whose question is a string that strips to non-empty and whose presets are a list (missing: empty), and then with the stripped question and those presets; invalid JSON gives 400; a body that is not a dict, or a question that is not a string, gives 500 |
| Feedback.BlankQuestionRejected | feedback_server.py:126-131 | a blank or missing question is 400 "Question text is required" |
| Feedback.NonListPresetsRejected | feedback_server.py:133-136 | presets that are not a list are 400 |
| Feedback.MissingPresetsAreEmpty | feedback_server.py:126 | missing presets are an empty list |
| Feedback.FeedbackServer.constructor | feedback_server.py:45-50 | an empty store, the settings copied, `server_url or "http://localhost:8080"` |
| Feedback.FeedbackServer.AskQuestion | feedback_server.py:121-164 | a rejected request stores nothing; an accepted one stores one unanswered question under the id and answers 200 with the id, "pending", 30 seconds and the reply endpoint |
| Feedback.FeedbackServer.GetReply | feedback_server.py:176-202 | 404 iff the id is absent or the key differs; answered gives `answered` True and the reply; otherwise the pending body |
| Feedback.FeedbackServer.AnswerQuestionPost | feedback_server.py:410-436 | 404 for an absent id or another key, 400 when already answered or the stripped answer is empty, all without change; otherwise answered with `{"answer": text}` and 200 |
| Mcp.ErrorResponse | mcp_server.py:320-329 | exactly `jsonrpc` "2.0", the id, and `error` with exactly `code` and `message` |
| Mcp.InitializeResponse | mcp_server.py:124-139 | protocol version "2024-11-05", empty tool capabilities, server name "vibecode-feedback-server" version "1.0.0" |
| Mcp.HandleCallTool | mcp_server.py:159-171 | routed iff the params and arguments are dicts and the name is one of the three tools; an unknown name is -32602 "Unknown tool: name"; every outcome echoes the id |
| Mcp.McpServer.constructor | mcp_server.py:31-102 | the server holds the three declared tools |
| Mcp.McpServer.HandleListTools | mcp_server.py:141-157 | the appended list is one entry per tool, in order, with its name |
| Mcp.McpServer.HandleRequest | mcp_server.py:104-122 | dispatch on `method`: initialize, tools/list with the tool entries, tools/call; anything else is -32601 naming the method; the id is always echoed |
| Mcp.DeclaredToolNames | mcp_server.py:31-102 | three tools, in declaration order |
| Mcp.ListedToolsAreCallable | mcp_server.py:141-171 | a name is routed iff it is a listed tool's, and a listed tool with dict arguments is invoked |
| Mcp.UnknownToolIsInvalidParams | mcp_server.py:170-171 | any other name gives code -32602 with the name in the message |
| Mcp.MalformedCallIsInternalError | mcp_server.py:110-122 | params or arguments that are not a dict make `.get` raise, which gives code -32603 |
| Text.Strip | server/tools/ask_question.py:23 | the result is no longer than the input and neither starts nor ends with whitespace |
| Text.ParseInt | server/utility/config.py:48 | a blank value is a ValueError; an accepted value ends in a digit and starts with a digit or a sign |
| Text.StripEmptyIffAllSpace | server/tools/ask_question.py:39 | a string strips to "" iff it is all whitespace |
| Text.StripIdempotent | server/tools/ask_question.py:23 | stripping twice equals stripping once |
| Text.StripMargins | server/tools/ask_question.py:23 | the stripped text is a slice whose removed margins are whitespace |
| Text.RStripCharIdempotent | server/utility/config.py:43 | `rstrip("/")` twice equals once |
| Text.ParseIntRoundTrip | server/utility/config.py:48 | `int(str(n)) == n` for every integer |

## Left out

- Threads and locks: each locked section is one atomic method; the `RLock`, the startup thread and the asyncio tasks are not modelled.
- Clocks: each request reads one integer clock value `now`. The source reads the clock several times per request, in fractional seconds or as timezone-aware datetimes.
- Datetime range: `created_at + timedelta(seconds=ttl_seconds)` raises OverflowError when the TTL exceeds what `timedelta` holds or the deadline passes year 9999. From then on every status read, TTL step and answer on that record raises. The model has unbounded integers, so such a record simply stays pending.
- Randomness: `uuid4` and `token_urlsafe` are replaced by parameters. An id that is already stored is overwritten, as Python dict assignment does.
- The Pushover POST through `requests` or `aiohttp` is network I/O; its outcome is the parameter `postSucceeds`.
- `send_pushover_notification` in `feedback_server.py` is not modelled: it only composes and posts a message.
- HTML rendering (`render_template`, the inline HTML of `feedback_server.py` including `answer_question_get`), the health and static routes, and framework routing beyond the review-route pattern are presentation and I/O.
- Pushover.NotificationPayload: the review URL is built from the `config` argument. The source builds it with `build_review_url`, which reads the global `get_config()` and not the argument. The model treats the two as one config. In `ask_question` they are the same object, but a caller that passes another config gets a different URL than the model states.
- Environment loading: dotenv and `lru_cache`, and the `get_question_manager` / `set_question_manager` singletons. The config and the manager are passed explicitly, and the environment is a map.
- `mcp_feedback_server.py` is not part of this model: its store, sweep and guards repeat `feedback_server.py`, and the rest is SDK wiring.
- The tool bodies of `mcp_server.py` read the console with `input()`; a routed call ends in `InvokeTool`.
- `main` of `mcp_server.py` is not modelled: the stdin loop, the -32700 parse error, and requests that are not JSON objects.
- `server/mcp_server.py` (FastMCP registration and instructions text) and `server/main.py` are transport setup.
- Json: there is no float case. A JSON-RPC id or a request body of `mcp_server.py` or `feedback_server.py` that holds a float is not modelled.
- Json.Display: `str()` of a list or dict inside an error message is a placeholder, not Python's repr. Dicts are unordered maps, so key order is not modelled.
- Text.ParseInt: accepts an optional sign and ASCII digits with single underscores between them, after Python whitespace stripping. Three differences from `int()` are not modelled. `int()` also accepts non-ASCII Unicode digits. It does not skip the separators U+001C to U+001F, which `str.isspace()` accepts, so it rejects a value with them at its margins, which `Strip` removes. On CPython 3.11 and later it rejects more than 4300 digits. In the last two cases `Config.IntSetting` gives the default where the model gives the value.
- Config.ExtractHeader: header lookup is exact on the key; the case-insensitive matching a real header mapping may perform is not modelled.
- Feedback.FeedbackServer.CleanupExpiredQuestions: models one pass; the `while True` loop, its sleeps and the catch-all `except` around a pass are left out.
- Feedback.ValidateAsk: the request body is the already decoded JSON value, or None for a body that does not decode.
- Feedback.FeedbackServer.AskQuestion: the `Question` datatype keeps `created_at` as whole seconds; the source stores the float `time.time()`.
- Feedback.FeedbackServer.AnswerQuestionPost: the form field is a string or absent; file uploads are not modelled.
- FlaskServer.AnswerQuestionPage: modelled as one atomic step, although the route runs two locked sections, `get_authorized_question_with_ttl` and then `answer_question`, and releases the lock between them while Flask serves requests in threads. Two outcomes of that gap are not captured. With two concurrent POSTs on one open question, the loser's `mark_answer` does nothing and its page shows the winner's answer. A record purged in the gap makes `answer_question` raise QuestionNotFoundError, which the route does not catch, so the request fails instead of returning 404. The source also reads the clock again after answering; the model uses one `now`.
- Feedback.FeedbackServer.AnswerQuestionPost: modelled as one atomic step. In the source the "already answered" guard and the write are separated by `await request.post()`. A second POST or the sweep can run in that gap. A later accepted answer then overwrites an earlier one, or overwrites the fallback reply of a question the sweep just expired and leaves `expired` set. The model does not capture this lost update.
- AskQuestion.SanitizePresetAnswers: which items survive is stated through `SanitizedAgreesWithOptionItems` and the option filter's membership lemma, not by a membership lemma of its own.
