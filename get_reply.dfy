/**
 * The `get_reply` MCP resource (server/tools/get_reply.py): check the API
 * key, look the question up with the lazy TTL step, and report either the
 * pending state with poll metadata or the final answer.
 */
module GetReply {
  import opened Wrappers
  import opened Text
  import opened Json
  import opened Config
  import opened ContextManager
  import opened Polling

  const INVALID_AUTH_KEY_ERROR: string := "Invalid auth key"

  /** The message of the KeyError raised for an unknown id. */
  function UnknownQuestionError(questionId: string): string {
    "Unknown question_id: " + questionId
  }

  /** `_pending_payload(poll_interval)`. */
  function PendingPayload(pollInterval: int): (m: Object)
    ensures m.Keys == BuildPollMetadata(pollInterval).Keys + {"answered", "status"}
    ensures m["answered"] == JBool(false) && m["status"] == JStr("pending")
    ensures forall k | k in BuildPollMetadata(pollInterval) :: m[k] == BuildPollMetadata(pollInterval)[k]
  {
    map["answered" := JBool(false), "status" := JStr("pending")] + BuildPollMetadata(pollInterval)
  }

  /** `record.answer or config.fallback_answer`: a missing or empty answer shows the fallback. */
  function ShownAnswer(answer: Option<string>, fallback: string): (s: string)
    ensures Truthy(answer) ==> s == answer.value
    ensures !Truthy(answer) ==> s == fallback
  {
    Or(answer, Some(fallback)).value
  }

  /** The payload for a question that is no longer pending. */
  function FinalPayload(status: Status, answer: Option<string>, fallback: string): (m: Object)
    ensures m.Keys == {"answered", "status", "reply"}
    ensures m["answered"] == JBool(true) && m["status"] == JStr(status.Name())
    ensures m["reply"] == JObj(map["answer" := JStr(ShownAnswer(answer, fallback))])
  {
    map[
      "answered" := JBool(true),
      "status" := JStr(status.Name()),
      "reply" := JObj(map["answer" := JStr(ShownAnswer(answer, fallback))])]
  }

  /** The dict `get_reply` returns for an authorised record, after the TTL step, at time `now`. */
  function ReplyFor(config: Config, record: RecordValue, now: int): (m: Object)
    ensures "answered" in m && "status" in m
    ensures m["answered"] == JBool(record.Status(now) != Pending)
    ensures m["status"] == JStr(record.Status(now).Name())
    ensures record.Status(now) == Pending <==> "reply" !in m
    ensures record.Status(now) == Pending ==> m == PendingPayload(config.pollIntervalSeconds)
    ensures record.Status(now) != Pending ==>
      m["reply"] == JObj(map["answer" := JStr(ShownAnswer(record.answer, config.fallbackAnswer))])
  {
    var status := record.Status(now);
    if status == Pending then PendingPayload(config.pollIntervalSeconds)
    else FinalPayload(status, record.answer, config.fallbackAnswer)
  }

  /**
   * `get_reply(question_id, auth_key, ctx)`. The API key is checked before
   * the registry is touched; the registry's not-found error becomes a
   * KeyError and its access error a PermissionError, and neither changes
   * any record.
   */
  method GetReply(config: Config, manager: QuestionContextManager, ctx: Option<Context>,
                  questionId: string, authKey: string, now: int)
    returns (r: Result<Object, PyError>)
    requires manager.Valid()
    modifies manager.records.Values
    ensures manager.Valid()
    ensures RequireApiKey(config, ctx, None).Err? ==> r == Err(PermissionError(API_KEY_ERROR))
    ensures RequireApiKey(config, ctx, None).Ok? && questionId !in manager.records ==>
      r == Err(KeyError(UnknownQuestionError(questionId)))
    ensures RequireApiKey(config, ctx, None).Ok? && questionId in manager.records && manager.records[questionId].authKey != authKey ==>
      r == Err(PermissionError(INVALID_AUTH_KEY_ERROR))
    ensures RequireApiKey(config, ctx, None).Ok? && questionId in manager.records && manager.records[questionId].authKey == authKey ==>
      r.Ok?
    ensures r.Err? ==> forall id | id in manager.records :: manager.records[id].Value() == old(manager.records[id].Value())
    ensures r.Ok? ==>
      && RequireApiKey(config, ctx, None).Ok?
      && questionId in manager.records && manager.records[questionId].authKey == authKey
      && manager.records[questionId].Value() == old(manager.records[questionId].Value()).TtlApplied(config.fallbackAnswer, now)
      && r == Ok(ReplyFor(config, manager.records[questionId].Value(), now))
      && forall id | id in manager.records && id != questionId :: manager.records[id].Value() == old(manager.records[id].Value())
  {
    var auth := RequireApiKey(config, ctx, None);
    if auth.Err? {
      return Err(PermissionError(auth.error));
    }
    var lookup := manager.GetAuthorizedQuestionWithTtl(questionId, authKey, config.fallbackAnswer, now);
    if lookup.Err? {
      match lookup.error
      case QuestionNotFound(_) =>
        return Err(KeyError(UnknownQuestionError(questionId)));
      case QuestionAccessDenied =>
        return Err(PermissionError(INVALID_AUTH_KEY_ERROR));
    }
    var record := lookup.value;
    r := Ok(ReplyFor(config, record.Value(), now));
  }

  /**
   * An open question read at or after its deadline is reported expired,
   * with the fallback answer, because the TTL step runs before the status
   * is read.
   */
  lemma OverdueQuestionReportsFallback(config: Config, record: RecordValue, now: int)
    requires record.IsOpen() && record.HasExpired(now)
    ensures var m := ReplyFor(config, record.TtlApplied(config.fallbackAnswer, now), now);
      && m["answered"] == JBool(true)
      && m["status"] == JStr("expired")
      && m["reply"] == JObj(map["answer" := JStr(config.fallbackAnswer)])
  {
    var w := record.TtlApplied(config.fallbackAnswer, now);
    assert w.answer == Some(config.fallbackAnswer) && w.expired;
  }

  /** An answer given in time is reported as answered, at any later read, however late. */
  lemma AnsweredQuestionReportsAnswer(config: Config, record: RecordValue, answer: string, answeredAt: int, now: int)
    requires record.IsOpen() && answeredAt < record.Deadline() && answer != ""
    ensures var answered := record.AnswerApplied(answer, config.fallbackAnswer, answeredAt);
      var m := ReplyFor(config, answered.TtlApplied(config.fallbackAnswer, now), now);
      && m["status"] == JStr("answered")
      && m["reply"] == JObj(map["answer" := JStr(answer)])
  {
  }

  /** Before its deadline an unanswered question is reported pending, with the poll metadata and no reply. */
  lemma OpenQuestionReportsPending(config: Config, record: RecordValue, now: int)
    requires record.IsOpen() && !record.HasExpired(now)
    ensures ReplyFor(config, record.TtlApplied(config.fallbackAnswer, now), now) == PendingPayload(config.pollIntervalSeconds)
  {
  }
}
