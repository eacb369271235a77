/**
 * The older REST server (feedback_server.py): a dictionary of questions
 * swept periodically, and the guards of its agent and human endpoints.
 * Each handler is one atomic step on the `questions` field; `now` is the
 * clock value the sweep reads, and ids and keys are parameters.
 */
module Feedback {
  import opened Wrappers
  import opened Text
  import opened Json

  const DEFAULT_TTL_SECONDS: int := 300
  const DEFAULT_SERVER_URL: string := "http://localhost:8080"
  const EXPIRED_ANSWER: string := "Sorry, no human could be reached. Please use your best judgment."
  const POLL_INTERVAL_SECONDS: int := 30
  const POLL_INSTRUCTIONS: string := "Poll this endpoint every 30 seconds for the answer."

  /** A stored question. `createdAt` is in whole seconds; the source keeps a float. */
  datatype Question = Question(
    questionId: string,
    authKey: string,
    question: string,
    presetAnswers: seq<Json>,
    createdAt: int,
    ttlSeconds: int,
    answered: bool,
    reply: Option<Object>,
    expired: bool)

  /** The reply a question gets when nobody answered in time. */
  function ExpiredReply(): Object {
    map["answer" := JStr(EXPIRED_ANSWER), "expired" := JBool(true)]
  }

  /** The sweep's first test: unanswered and strictly older than its TTL. */
  predicate Overdue(q: Question, now: int) {
    !q.answered && now - q.createdAt > q.ttlSeconds
  }

  /** The sweep's second test: answered and strictly older than twice its TTL. */
  predicate Stale(q: Question, now: int) {
    q.answered && now - q.createdAt > q.ttlSeconds * 2
  }

  /** A question marked expired by the sweep. */
  function Expire(q: Question): Question {
    q.(expired := true, answered := true, reply := Some(ExpiredReply()))
  }

  /** What one pass does to a question it keeps. */
  function SweepEntry(q: Question, now: int): Question {
    if Overdue(q, now) then Expire(q) else q
  }

  /**
   * The store after one pass of `cleanup_expired_questions` at `now`:
   * overdue questions are expired and stale ones deleted. Every entry is
   * judged by its state at the start of the pass, so a question expired in
   * this pass is never deleted in the same pass.
   */
  function Swept(questions: map<string, Question>, now: int): (r: map<string, Question>)
    ensures r.Keys <= questions.Keys
  {
    map id | id in questions && !Stale(questions[id], now) :: SweepEntry(questions[id], now)
  }

  /** An HTTP response: a JSON body or plain text, with its status code. */
  datatype HttpResponse = JsonResponse(status: int, body: Object) | TextResponse(status: int, text: string)

  function JsonError(status: int, message: string): HttpResponse {
    JsonResponse(status, map["error" := JStr(message)])
  }

  /** The polling path handed to the agent. */
  function ReplyEndpoint(authKey: string, questionId: string): string {
    "/get_reply/" + authKey + "/" + questionId
  }

  /** The JSON for a stored reply, which is None until the question is answered. */
  function ReplyJson(reply: Option<Object>): Json {
    match reply
    case None => JNull
    case Some(o) => JObj(o)
  }

  /** The body returned while a question is unanswered. */
  function PendingBody(authKey: string, questionId: string): Object {
    map[
      "answered" := JBool(false),
      "status" := JStr("pending"),
      "poll_interval_seconds" := JInt(POLL_INTERVAL_SECONDS),
      "poll_instructions" := JStr(POLL_INSTRUCTIONS),
      "reply_endpoint" := JStr(ReplyEndpoint(authKey, questionId))]
  }

  /** The body returned for a question just created. */
  function CreatedBody(authKey: string, questionId: string): Object {
    map[
      "question_id" := JStr(questionId),
      "status" := JStr("pending"),
      "poll_interval_seconds" := JInt(POLL_INTERVAL_SECONDS),
      "reply_endpoint" := JStr(ReplyEndpoint(authKey, questionId)),
      "poll_instructions" := JStr(POLL_INSTRUCTIONS)]
  }

  /** The outcome of `ask_question` for a request body; None stands for a body that is not valid JSON. */
  datatype AskOutcome = Rejected(response: HttpResponse) | Accepted(question: string, presets: seq<Json>)

  /**
   * The validation of `ask_question`: invalid JSON is 400; a body that is
   * not an object, or a question that is not a string, makes `.get` or
   * `.strip` raise, which is 500; a blank question is 400; presets that
   * are not a list are 400.
   */
  function ValidateAsk(body: Option<Json>): (o: AskOutcome)
    ensures body.None? ==> o == Rejected(JsonError(400, "Invalid JSON in request body"))
    ensures body.Some? && !body.value.JObj? ==> o == Rejected(JsonError(500, "Internal server error"))
    ensures body.Some? && body.value.JObj? && !Get(body.value.fields, "question", JStr("")).JStr? ==>
      o == Rejected(JsonError(500, "Internal server error"))
    ensures (body.Some? && body.value.JObj? && Get(body.value.fields, "question", JStr("")).JStr?
             && Strip(Get(body.value.fields, "question", JStr("")).s) != ""
             && Get(body.value.fields, "preset_answers", JArr([])).JArr?) ==>
      o == Accepted(Strip(Get(body.value.fields, "question", JStr("")).s), Get(body.value.fields, "preset_answers", JArr([])).items)
    ensures o.Accepted? ==>
      && body.Some? && body.value.JObj?
      && Get(body.value.fields, "question", JStr("")).JStr?
      && o.question == Strip(Get(body.value.fields, "question", JStr("")).s)
      && o.question != ""
      && Get(body.value.fields, "preset_answers", JArr([])) == JArr(o.presets)
  {
    match body
    case None => Rejected(JsonError(400, "Invalid JSON in request body"))
    case Some(data) =>
      if !data.JObj? then Rejected(JsonError(500, "Internal server error"))
      else
        var q := Get(data.fields, "question", JStr(""));
        if !q.JStr? then Rejected(JsonError(500, "Internal server error"))
        else
          var text := Strip(q.s);
          var presets := Get(data.fields, "preset_answers", JArr([]));
          if text == "" then Rejected(JsonError(400, "Question text is required"))
          else if !presets.JArr? then Rejected(JsonError(400, "preset_answers must be a list"))
          else Accepted(text, presets.items)
  }

  /** A blank or missing question is refused with 400, whatever the presets. */
  lemma BlankQuestionRejected(fields: Object)
    requires Get(fields, "question", JStr("")).JStr? && Strip(Get(fields, "question", JStr("")).s) == ""
    ensures ValidateAsk(Some(JObj(fields))) == Rejected(JsonError(400, "Question text is required"))
  {
  }

  /** Presets that are not a list are refused with 400 once the question is present. */
  lemma NonListPresetsRejected(fields: Object)
    requires "question" in fields && fields["question"].JStr? && Strip(fields["question"].s) != ""
    requires "preset_answers" in fields && !fields["preset_answers"].JArr?
    ensures ValidateAsk(Some(JObj(fields))) == Rejected(JsonError(400, "preset_answers must be a list"))
  {
  }

  /** A missing `preset_answers` means an empty list. */
  lemma MissingPresetsAreEmpty(fields: Object)
    requires "question" in fields && fields["question"].JStr? && Strip(fields["question"].s) != ""
    requires "preset_answers" !in fields
    ensures ValidateAsk(Some(JObj(fields))) == Accepted(Strip(fields["question"].s), [])
  {
  }

  // --------------------------------------------------------- properties of one pass

  /** An overdue question is kept, expired, marked answered and given the fallback reply. */
  lemma SweepExpiresOverdue(questions: map<string, Question>, now: int, id: string)
    requires id in questions && Overdue(questions[id], now)
    ensures id in Swept(questions, now)
    ensures var q := Swept(questions, now)[id];
      q.expired && q.answered && q.reply == Some(ExpiredReply())
      && q == questions[id].(expired := true, answered := true, reply := Some(ExpiredReply()))
  {
  }

  /** Exactly the stale questions are deleted. */
  lemma SweepDeletesExactlyStale(questions: map<string, Question>, now: int, id: string)
    ensures id in Swept(questions, now) <==> id in questions && !Stale(questions[id], now)
  {
  }

  /** A question that is neither overdue nor stale is kept as it is. */
  lemma SweepKeepsTheRest(questions: map<string, Question>, now: int, id: string)
    requires id in questions && !Overdue(questions[id], now) && !Stale(questions[id], now)
    ensures id in Swept(questions, now) && Swept(questions, now)[id] == questions[id]
  {
  }

  /** A pass never changes a recorded answer: answered questions are kept unchanged or deleted. */
  lemma SweepKeepsAnswers(questions: map<string, Question>, now: int, id: string)
    requires id in questions && questions[id].answered
    ensures id in Swept(questions, now) ==> Swept(questions, now)[id] == questions[id]
  {
  }

  /**
   * A question older than both its TTL and twice its TTL is expired by one
   * pass and deleted by the next; it survives the first pass.
   */
  lemma SecondPassDeletesExpired(questions: map<string, Question>, now: int, later: int, id: string)
    requires id in questions && !questions[id].answered
    requires now <= later
    requires now - questions[id].createdAt > questions[id].ttlSeconds
    requires later - questions[id].createdAt > questions[id].ttlSeconds * 2
    ensures id in Swept(questions, now)
    ensures id !in Swept(Swept(questions, now), later)
  {
  }

  /** The id is stored and the key matches it. */
  predicate Authorized(questions: map<string, Question>, questionId: string, authKey: string) {
    questionId in questions && questions[questionId].authKey == authKey
  }

  /** The `answer` form field, stripped; a missing field counts as empty. */
  function AnswerText(answer: Option<string>): string {
    Strip(answer.GetOr(""))
  }

  /** A question once the human's answer is recorded. */
  function WithAnswer(q: Question, text: string): Question {
    q.(answered := true, reply := Some(map["answer" := JStr(text)]))
  }

  // ----------------------------------------------------------------- the server

  class FeedbackServer {
    var questions: map<string, Question>
    var ttlSeconds: int
    var pushoverToken: Option<string>
    var pushoverUser: Option<string>
    var serverUrl: string

    /** `FeedbackServer(ttl_seconds, pushover_token, pushover_user, server_url)`; the sweep task is not modelled. */
    constructor (ttlSeconds: int, pushoverToken: Option<string>, pushoverUser: Option<string>, serverUrl: Option<string>)
      ensures questions == map[]
      ensures this.ttlSeconds == ttlSeconds
      ensures this.pushoverToken == pushoverToken && this.pushoverUser == pushoverUser
      ensures this.serverUrl == (if Truthy(serverUrl) then serverUrl.value else DEFAULT_SERVER_URL)
    {
      questions := map[];
      this.ttlSeconds := ttlSeconds;
      this.pushoverToken := pushoverToken;
      this.pushoverUser := pushoverUser;
      this.serverUrl := Or(serverUrl, Some(DEFAULT_SERVER_URL)).value;
    }

    /**
     * One pass of `cleanup_expired_questions` at time `now`: mark the
     * overdue questions while collecting the stale ids, then delete those.
     */
    method CleanupExpiredQuestions(now: int)
      modifies this`questions
      ensures questions == Swept(old(questions), now)
    {
      var start := questions;
      var remaining := start.Keys;
      var expiredKeys: seq<string> := [];
      while remaining != {}
        invariant remaining <= start.Keys
        invariant questions.Keys == start.Keys
        invariant forall id | id in start :: questions[id] == (if id in remaining then start[id] else SweepEntry(start[id], now))
        invariant forall id :: id in expiredKeys <==> id in start && id !in remaining && Stale(start[id], now)
        decreases remaining
      {
        var id :| id in remaining;
        var q := questions[id];
        if !q.answered && now - q.createdAt > q.ttlSeconds {
          questions := questions[id := q.(expired := true, answered := true, reply := Some(ExpiredReply()))];
        } else if q.answered && now - q.createdAt > q.ttlSeconds * 2 {
          expiredKeys := expiredKeys + [id];
        }
        remaining := remaining - {id};
      }
      var marked := questions;
      for i := 0 to |expiredKeys|
        invariant questions == map id | id in marked && id !in expiredKeys[..i] :: marked[id]
      {
        assert expiredKeys[..i + 1] == expiredKeys[..i] + [expiredKeys[i]];
        questions := questions - {expiredKeys[i]};
      }
      assert expiredKeys[..|expiredKeys|] == expiredKeys;
    }

    /**
     * `ask_question(request)` with the parsed body, the generated id and
     * key, and the creation time. A rejected request stores nothing.
     */
    method AskQuestion(body: Option<Json>, questionId: string, authKey: string, now: int) returns (resp: HttpResponse)
      modifies this`questions
      ensures ValidateAsk(body).Rejected? ==> resp == ValidateAsk(body).response && questions == old(questions)
      ensures ValidateAsk(body).Accepted? ==>
        && questions == old(questions)[questionId := Question(questionId, authKey, ValidateAsk(body).question,
                                                               ValidateAsk(body).presets, now, ttlSeconds, false, None, false)]
        && resp == JsonResponse(200, CreatedBody(authKey, questionId))
    {
      var outcome := ValidateAsk(body);
      if outcome.Rejected? {
        return outcome.response;
      }
      questions := questions[questionId := Question(questionId, authKey, outcome.question, outcome.presets,
                                                    now, ttlSeconds, false, None, false)];
      resp := JsonResponse(200, CreatedBody(authKey, questionId));
    }

    /** `get_reply(request)` for the path's key and id. */
    method GetReply(authKey: string, questionId: string) returns (resp: HttpResponse)
      ensures questionId !in questions || questions[questionId].authKey != authKey ==>
        resp == JsonError(404, "Question not found or invalid auth key")
      ensures questionId in questions && questions[questionId].authKey == authKey && questions[questionId].answered ==>
        resp == JsonResponse(200, map["answered" := JBool(true), "reply" := ReplyJson(questions[questionId].reply)])
      ensures questionId in questions && questions[questionId].authKey == authKey && !questions[questionId].answered ==>
        resp == JsonResponse(200, PendingBody(authKey, questionId))
      ensures resp.JsonResponse? && (resp.status == 200 <==> questionId in questions && questions[questionId].authKey == authKey)
    {
      if questionId !in questions || questions[questionId].authKey != authKey {
        return JsonError(404, "Question not found or invalid auth key");
      }
      var q := questions[questionId];
      if q.answered {
        resp := JsonResponse(200, map["answered" := JBool(true), "reply" := ReplyJson(q.reply)]);
      } else {
        resp := JsonResponse(200, PendingBody(authKey, questionId));
      }
    }

    /**
     * `answer_question_post(request)` with the form's `answer` field. Only
     * an unanswered question with a non-blank answer is changed.
     */
    method AnswerQuestionPost(authKey: string, questionId: string, answer: Option<string>) returns (resp: HttpResponse)
      modifies this`questions
      ensures !Authorized(old(questions), questionId, authKey) ==>
        resp == TextResponse(404, "Question not found or invalid link") && questions == old(questions)
      ensures Authorized(old(questions), questionId, authKey) && old(questions)[questionId].answered ==>
        resp == TextResponse(400, "Question already answered") && questions == old(questions)
      ensures Authorized(old(questions), questionId, authKey) && !old(questions)[questionId].answered
              && AnswerText(answer) == "" ==>
        resp == TextResponse(400, "Answer is required") && questions == old(questions)
      ensures Authorized(old(questions), questionId, authKey) && !old(questions)[questionId].answered
              && AnswerText(answer) != "" ==>
        && resp == TextResponse(200, "Answer submitted successfully")
        && questions == old(questions)[questionId := WithAnswer(old(questions)[questionId], AnswerText(answer))]
    {
      if questionId !in questions || questions[questionId].authKey != authKey {
        return TextResponse(404, "Question not found or invalid link");
      }
      var q := questions[questionId];
      if q.answered {
        return TextResponse(400, "Question already answered");
      }
      var text := AnswerText(answer);
      if text == "" {
        return TextResponse(400, "Answer is required");
      }
      questions := questions[questionId := WithAnswer(q, text)];
      resp := TextResponse(200, "Answer submitted successfully");
    }
  }
}
