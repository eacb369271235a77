/**
 * The question lifecycle registry (server/utility/context_manager.py).
 *
 * A record's status is derived from the clock and its fields; its answer and
 * expired flag are written at most once. The manager owns the map from
 * question id to record. Each method stands for one locked section of the
 * source, so it runs atomically. Time is an integer number of seconds, and
 * the random id and auth key are parameters.
 */
module ContextManager {
  import opened Wrappers
  import Config

  datatype Status = Pending | Answered | Expired {
    /** The status string the source returns. */
    function Name(): string {
      match this
      case Pending => "pending"
      case Answered => "answered"
      case Expired => "expired"
    }
  }

  /** QuestionNotFoundError (a KeyError) and QuestionAccessError (a PermissionError). */
  datatype RegistryError = QuestionNotFound(questionId: string) | QuestionAccessDenied

  /** The contents of a QuestionRecord at one instant. */
  datatype RecordValue = RecordValue(
    questionId: string,
    authKey: string,
    question: string,
    presetAnswers: seq<string>,
    createdAt: int,
    ttlSeconds: int,
    answer: Option<string>,
    answeredAt: Option<int>,
    expired: bool)
  {
    /** `is_answered()`. */
    predicate IsAnswered() {
      answer.Some?
    }

    function Deadline(): int {
      createdAt + ttlSeconds
    }

    /** `has_expired(now)`: the deadline itself already counts as expired. */
    predicate HasExpired(now: int) {
      now >= Deadline()
    }

    /** `status(now)`. */
    function Status(now: int): (s: Status)
      ensures s == Expired <==> expired || (!IsAnswered() && HasExpired(now))
      ensures s == Answered <==> !expired && IsAnswered()
      ensures s == Pending <==> !expired && !IsAnswered() && !HasExpired(now)
    {
      if expired then Expired
      else if IsAnswered() then Answered
      else if HasExpired(now) then Expired
      else Pending
    }

    /** The record after `mark_answer(answer, now)`. */
    function MarkedAnswer(answer': string, now: int): (r: RecordValue)
      ensures r.IsAnswered() && r.expired == expired
      ensures Advances(this, r)
      ensures Coherent() ==> r.Coherent()
    {
      if IsAnswered() then this
      else this.(answer := Some(answer'), answeredAt := Some(now))
    }

    /** The record after `mark_expired(fallback_answer, now)`. */
    function MarkedExpired(fallback: string, now: int): (r: RecordValue)
      ensures r.IsAnswered()
      ensures Advances(this, r)
      ensures Coherent() ==> r.Coherent()
    {
      if IsAnswered() then this
      else this.(answer := Some(fallback), answeredAt := Some(now), expired := true)
    }

    /** The record after `ensure_ttl_state(record, fallback_answer, now)`. */
    function TtlApplied(fallback: string, now: int): (r: RecordValue)
      ensures HasExpired(now) ==> !r.IsOpen()
      ensures !HasExpired(now) ==> r == this
      ensures Advances(this, r)
      ensures Coherent() ==> r.Coherent()
    {
      if !expired && !IsAnswered() && HasExpired(now) then MarkedExpired(fallback, now) else this
    }

    /** The record after a successful `answer_question(..., answer, fallback_answer, now)`. */
    function AnswerApplied(answer': string, fallback: string, now: int): (r: RecordValue)
      ensures !r.IsOpen()
      ensures !IsOpen() ==> r == this
      ensures Advances(this, r)
      ensures Coherent() ==> r.Coherent()
    {
      var r := TtlApplied(fallback, now);
      if !r.expired && !r.IsAnswered() then r.MarkedAnswer(answer', now) else r
    }

    /** Still open: no answer and no expiry recorded. */
    predicate IsOpen() {
      !expired && !IsAnswered()
    }

    /**
     * The record invariant: the answer and its timestamp are set together,
     * and a record can only be expired once it carries the fallback answer.
     */
    predicate Coherent() {
      && (answer.Some? <==> answeredAt.Some?)
      && (expired ==> answer.Some?)
    }
  }

  /** Same question: identity, text, presets and timing are equal. */
  predicate SameQuestion(a: RecordValue, b: RecordValue) {
    && a.questionId == b.questionId && a.authKey == b.authKey
    && a.question == b.question && a.presetAnswers == b.presetAnswers
    && a.createdAt == b.createdAt && a.ttlSeconds == b.ttlSeconds
  }

  /**
   * `after` is a possible later state of `before`: the question is the same,
   * a recorded answer never changes and the expired flag is never cleared.
   */
  predicate Advances(before: RecordValue, after: RecordValue) {
    && SameQuestion(before, after)
    && (before.IsAnswered() ==> after.answer == before.answer && after.answeredAt == before.answeredAt)
    && (before.expired ==> after.expired)
  }

  /** `ttl_seconds or self._default_ttl_seconds`: None and 0 both select the default. */
  function EffectiveTtl(ttlSeconds: Option<int>, defaultTtl: int): (t: int)
    ensures ttlSeconds.None? || ttlSeconds.value == 0 ==> t == defaultTtl
    ensures ttlSeconds.Some? && ttlSeconds.value != 0 ==> t == ttlSeconds.value
  {
    if ttlSeconds.Some? && ttlSeconds.value != 0 then ttlSeconds.value else defaultTtl
  }

  /** The record `create_question` builds: no answer yet, not expired. */
  function NewRecord(questionId: string, authKey: string, question: string, presetAnswers: seq<string>,
                     createdAt: int, ttlSeconds: int): RecordValue {
    RecordValue(questionId, authKey, question, presetAnswers, createdAt, ttlSeconds, None, None, false)
  }

  // ---------------------------------------------------------------- lemmas

  /** The deadline is inclusive, and once reached it stays reached. */
  lemma ExpiryIsInclusive(v: RecordValue, now: int, later: int)
    requires now <= later
    ensures v.HasExpired(v.createdAt + v.ttlSeconds)
    ensures !v.HasExpired(v.createdAt + v.ttlSeconds - 1)
    ensures v.HasExpired(now) ==> v.HasExpired(later)
  {
  }

  /** A freshly created record is pending exactly until its deadline. */
  lemma NewRecordIsPending(questionId: string, authKey: string, question: string, presets: seq<string>,
                           createdAt: int, ttl: int, now: int)
    ensures var v := NewRecord(questionId, authKey, question, presets, createdAt, ttl);
      v.Coherent() && (v.Status(now) == Pending <==> now < createdAt + ttl)
  {
  }

  /** `mark_answer` is first-write-wins and leaves the expired flag alone. */
  lemma MarkAnswerFirstWriteWins(v: RecordValue, a: string, now: int)
    ensures v.IsAnswered() ==> v.MarkedAnswer(a, now) == v
    ensures !v.IsAnswered() ==> v.MarkedAnswer(a, now).answer == Some(a) && v.MarkedAnswer(a, now).answeredAt == Some(now)
    ensures v.MarkedAnswer(a, now).expired == v.expired
    ensures Advances(v, v.MarkedAnswer(a, now))
  {
  }

  /** A second `mark_answer` never replaces the first. */
  lemma MarkAnswerTwice(v: RecordValue, a1: string, t1: int, a2: string, t2: int)
    ensures v.MarkedAnswer(a1, t1).MarkedAnswer(a2, t2) == v.MarkedAnswer(a1, t1)
  {
  }

  /** `mark_expired` never overwrites an answer; otherwise it sets answer, timestamp and flag together. */
  lemma MarkExpiredSetsAllThree(v: RecordValue, fallback: string, now: int)
    ensures v.IsAnswered() ==> v.MarkedExpired(fallback, now) == v
    ensures !v.IsAnswered() ==>
      var r := v.MarkedExpired(fallback, now);
      r.answer == Some(fallback) && r.answeredAt == Some(now) && r.expired
    ensures Advances(v, v.MarkedExpired(fallback, now))
  {
  }

  /**
   * `ensure_ttl_state` changes only an open record past its deadline, and
   * then leaves it expired with the fallback answer.
   */
  lemma TtlStateChangesOnlyOverdueOpenRecords(v: RecordValue, fallback: string, now: int)
    ensures !(v.IsOpen() && v.HasExpired(now)) ==> v.TtlApplied(fallback, now) == v
    ensures v.IsOpen() && v.HasExpired(now) ==>
      var r := v.TtlApplied(fallback, now);
      r.answer == Some(fallback) && r.answeredAt == Some(now) && r.expired
    ensures Advances(v, v.TtlApplied(fallback, now))
  {
  }

  /** Applying the TTL rules twice at the same instant equals applying them once. */
  lemma TtlStateIdempotent(v: RecordValue, fallback: string, now: int)
    ensures v.TtlApplied(fallback, now).TtlApplied(fallback, now) == v.TtlApplied(fallback, now)
  {
  }

  /** Past the deadline, the lazy TTL step leaves every record in the expired status or answered. */
  lemma TtlStatePastDeadline(v: RecordValue, fallback: string, now: int)
    requires v.HasExpired(now)
    ensures v.IsOpen() ==> v.TtlApplied(fallback, now).Status(now) == Expired
    ensures v.TtlApplied(fallback, now).Status(now) != Pending
  {
  }

  /**
   * `answer_question` records the human answer only on a record that is
   * still open before its deadline; past the deadline the fallback wins; a
   * closed record keeps its state.
   */
  lemma AnswerOutcome(v: RecordValue, a: string, fallback: string, now: int)
    ensures !v.IsOpen() ==> v.AnswerApplied(a, fallback, now) == v
    ensures v.IsOpen() && !v.HasExpired(now) ==>
      v.AnswerApplied(a, fallback, now) == v.(answer := Some(a), answeredAt := Some(now))
    ensures v.IsOpen() && v.HasExpired(now) ==>
      v.AnswerApplied(a, fallback, now) == v.(answer := Some(fallback), answeredAt := Some(now), expired := true)
    ensures Advances(v, v.AnswerApplied(a, fallback, now))
    ensures !v.AnswerApplied(a, fallback, now).IsOpen()
  {
  }

  /** Every operation keeps the record invariant. */
  lemma OperationsKeepCoherence(v: RecordValue, a: string, fallback: string, now: int)
    requires v.Coherent()
    ensures v.MarkedAnswer(a, now).Coherent()
    ensures v.MarkedExpired(fallback, now).Coherent()
    ensures v.TtlApplied(fallback, now).Coherent()
    ensures v.AnswerApplied(a, fallback, now).Coherent()
  {
  }

  /** How an open record settles when the human's answer is submitted at `answerTime`. */
  function Settlement(v: RecordValue, a: string, fallback: string, answerTime: int): (Option<string>, bool) {
    if answerTime < v.Deadline() then (Some(a), false) else (Some(fallback), true)
  }

  /**
   * The race between a lazy-expiry read and a human answer: whichever runs
   * first (with a clock that does not go backwards), the record ends in
   * exactly one terminal state, decided by when the answer was submitted.
   */
  lemma RaceSettlesOnce(v: RecordValue, a: string, fallback: string, readTime: int, answerTime: int)
    requires v.IsOpen()
    ensures readTime <= answerTime ==>
      var r := v.TtlApplied(fallback, readTime).AnswerApplied(a, fallback, answerTime);
      (r.answer, r.expired) == Settlement(v, a, fallback, answerTime)
    ensures answerTime <= readTime ==>
      var r := v.AnswerApplied(a, fallback, answerTime).TtlApplied(fallback, readTime);
      (r.answer, r.expired) == Settlement(v, a, fallback, answerTime)
  {
  }

  // ------------------------------------------------- sequences of calls

  /** A call that touches one record: `answer_question` or the lazy-TTL read path. */
  datatype Call = AnswerCall(answer: string, at: int) | ReadCall(at: int)

  /** The record after the calls in order, each under the lock. */
  function Replay(v: RecordValue, calls: seq<Call>, fallback: string): RecordValue
    decreases |calls|
  {
    if calls == [] then v
    else
      var c := calls[0];
      var next := match c
        case AnswerCall(a, t) => v.AnswerApplied(a, fallback, t)
        case ReadCall(t) => v.TtlApplied(fallback, t);
      Replay(next, calls[1..], fallback)
  }

  /** A call that closes an open record: any answer, or any call at or after the deadline. */
  predicate Closes(c: Call, deadline: int) {
    c.AnswerCall? || c.at >= deadline
  }

  /** A record that is closed stays exactly as it is, whatever calls follow. */
  lemma {:induction false} ClosedRecordIsFinal(v: RecordValue, calls: seq<Call>, fallback: string)
    requires !v.IsOpen()
    ensures Replay(v, calls, fallback) == v
    decreases |calls|
  {
    if calls != [] {
      ClosedRecordIsFinal(v, calls[1..], fallback);
    }
  }

  /**
   * For any sequence of calls on an open record: the stored answer is the
   * one of the first closing call, which is the human answer if that call
   * answered before the deadline and the fallback otherwise; without a
   * closing call the record stays open.
   */
  lemma {:induction false} FirstClosingCallDecides(v: RecordValue, calls: seq<Call>, fallback: string, i: nat)
    requires v.IsOpen()
    requires i <= |calls|
    requires forall j | 0 <= j < i :: !Closes(calls[j], v.Deadline())
    requires i < |calls| ==> Closes(calls[i], v.Deadline())
    ensures var r := Replay(v, calls, fallback);
      && SameQuestion(v, r)
      && (i == |calls| ==> r == v)
      && (i < |calls| && calls[i].AnswerCall? && calls[i].at < v.Deadline() ==>
            r.answer == Some(calls[i].answer) && !r.expired)
      && (i < |calls| && !(calls[i].AnswerCall? && calls[i].at < v.Deadline()) ==>
            r.answer == Some(fallback) && r.expired)
    decreases |calls|
  {
    if calls != [] {
      var c := calls[0];
      if i == 0 {
        var next := match c
          case AnswerCall(a, t) => v.AnswerApplied(a, fallback, t)
          case ReadCall(t) => v.TtlApplied(fallback, t);
        assert !next.IsOpen();
        ClosedRecordIsFinal(next, calls[1..], fallback);
      } else {
        assert !Closes(c, v.Deadline());
        assert v.TtlApplied(fallback, c.at) == v;
        FirstClosingCallDecides(v, calls[1..], fallback, i - 1);
      }
    }
  }

  // ------------------------------------------------------------ the record

  /** `QuestionRecord`: the answer fields are updated in place, the rest never changes. */
  class QuestionRecord {
    const questionId: string
    const authKey: string
    const question: string
    const presetAnswers: seq<string>
    const createdAt: int
    const ttlSeconds: int
    var answer: Option<string>
    var answeredAt: Option<int>
    var expired: bool

    constructor (questionId: string, authKey: string, question: string, presetAnswers: seq<string>,
                 createdAt: int, ttlSeconds: int)
      ensures Value() == NewRecord(questionId, authKey, question, presetAnswers, createdAt, ttlSeconds)
    {
      this.questionId := questionId;
      this.authKey := authKey;
      this.question := question;
      this.presetAnswers := presetAnswers;
      this.createdAt := createdAt;
      this.ttlSeconds := ttlSeconds;
      answer := None;
      answeredAt := None;
      expired := false;
    }

    /** The record's current contents, on which `is_answered`, `has_expired` and `status` are defined. */
    function Value(): RecordValue
      reads this
    {
      RecordValue(questionId, authKey, question, presetAnswers, createdAt, ttlSeconds, answer, answeredAt, expired)
    }

    /** `mark_answer(answer, now)`. */
    method MarkAnswer(answer': string, now: int)
      modifies this
      ensures Value() == old(Value()).MarkedAnswer(answer', now)
    {
      if answer.Some? {
        return;
      }
      answer := Some(answer');
      answeredAt := Some(now);
    }

    /** `mark_expired(fallback_answer, now)`. */
    method MarkExpired(fallback: string, now: int)
      modifies this
      ensures Value() == old(Value()).MarkedExpired(fallback, now)
    {
      if answer.Some? {
        return;
      }
      answer := Some(fallback);
      answeredAt := Some(now);
      expired := true;
    }
  }

  // ----------------------------------------------------------- the manager

  /** `QuestionContextManager`: the registry of records, keyed by question id. */
  class QuestionContextManager {
    var defaultTtlSeconds: int
    var records: map<string, QuestionRecord>

    /** Every record is stored under its own id, so distinct ids hold distinct records. */
    ghost predicate Valid()
      reads this
    {
      forall id | id in records :: records[id].questionId == id
    }

    constructor (defaultTtlSeconds: int)
      ensures Valid() && records == map[] && this.defaultTtlSeconds == defaultTtlSeconds
    {
      this.defaultTtlSeconds := defaultTtlSeconds;
      records := map[];
    }

    /** `set_default_ttl(ttl_seconds)`. */
    method SetDefaultTtl(ttlSeconds: int)
      modifies this`defaultTtlSeconds
      ensures defaultTtlSeconds == ttlSeconds
    {
      defaultTtlSeconds := ttlSeconds;
    }

    /**
     * `create_question(question, preset_answers, ttl_seconds)`, where
     * `questionId` and `authKey` are the generated identifiers and `now`
     * the creation time.
     */
    method CreateQuestion(question: string, presetAnswers: Option<seq<string>>, ttlSeconds: Option<int>,
                          questionId: string, authKey: string, now: int) returns (record: QuestionRecord)
      requires Valid()
      modifies this`records
      ensures Valid()
      ensures fresh(record)
      ensures records == old(records)[questionId := record]
      ensures record.Value() == NewRecord(questionId, authKey, question, presetAnswers.GetOr([]), now,
                                          EffectiveTtl(ttlSeconds, defaultTtlSeconds))
    {
      record := new QuestionRecord(questionId, authKey, question, presetAnswers.GetOr([]), now,
                                   EffectiveTtl(ttlSeconds, defaultTtlSeconds));
      records := records[questionId := record];
    }

    /** `get_question(question_id)`. */
    function GetQuestion(questionId: string): (r: Option<QuestionRecord>)
      reads this
      ensures r.Some? <==> questionId in records
      ensures r.Some? ==> r.value == records[questionId]
    {
      if questionId in records then Some(records[questionId]) else None
    }

    /** `require_question(question_id)`. */
    function RequireQuestion(questionId: string): (r: Result<QuestionRecord, RegistryError>)
      reads this
      ensures r.Ok? <==> questionId in records
      ensures r.Ok? ==> r.value == records[questionId]
      ensures r.Err? ==> r.error == QuestionNotFound(questionId)
    {
      match GetQuestion(questionId)
      case None => Err(QuestionNotFound(questionId))
      case Some(record) => Ok(record)
    }

    /** `require_authorized_question(question_id, auth_key)`: the auth key must match exactly. */
    function RequireAuthorizedQuestion(questionId: string, authKey: string): (r: Result<QuestionRecord, RegistryError>)
      reads this
      ensures r.Ok? <==> questionId in records && records[questionId].authKey == authKey
      ensures r.Ok? ==> r.value == records[questionId]
      ensures r == Err(QuestionNotFound(questionId)) <==> questionId !in records
      ensures r == Err(QuestionAccessDenied) <==> questionId in records && records[questionId].authKey != authKey
    {
      match RequireQuestion(questionId)
      case Err(e) => Err(e)
      case Ok(record) => if record.authKey != authKey then Err(QuestionAccessDenied) else Ok(record)
    }

    /** `ensure_ttl_state(record, fallback_answer, now)`. */
    method EnsureTtlState(record: QuestionRecord, fallback: string, now: int)
      modifies record
      ensures record.Value() == old(record.Value()).TtlApplied(fallback, now)
    {
      if !record.expired && record.answer.None? && now >= record.createdAt + record.ttlSeconds {
        record.MarkExpired(fallback, now);
      }
    }

    /**
     * `answer_question(question_id, auth_key, answer, fallback_answer, now)`:
     * authorise, apply the TTL rules, then record the answer if the record is
     * still open. A failed authorisation changes nothing.
     */
    method AnswerQuestion(questionId: string, authKey: string, answer: string, fallback: string, now: int)
      returns (r: Result<QuestionRecord, RegistryError>)
      requires Valid()
      modifies records.Values
      ensures Valid()
      ensures r == RequireAuthorizedQuestion(questionId, authKey)
      ensures r.Ok? ==> r.value.Value() == old(r.value.Value()).AnswerApplied(answer, fallback, now)
      ensures forall id | id in records && (r.Err? || id != questionId) :: records[id].Value() == old(records[id].Value())
    {
      r := RequireAuthorizedQuestion(questionId, authKey);
      if r.Err? {
        return;
      }
      var record := r.value;
      EnsureTtlState(record, fallback, now);
      if !record.expired && record.answer.None? {
        record.MarkAnswer(answer, now);
      }
    }

    /** `get_authorized_question_with_ttl(question_id, auth_key, fallback_answer, now)`: the read path of both front-ends. */
    method GetAuthorizedQuestionWithTtl(questionId: string, authKey: string, fallback: string, now: int)
      returns (r: Result<QuestionRecord, RegistryError>)
      requires Valid()
      modifies records.Values
      ensures Valid()
      ensures r == RequireAuthorizedQuestion(questionId, authKey)
      ensures r.Ok? ==> r.value.Value() == old(r.value.Value()).TtlApplied(fallback, now)
      ensures forall id | id in records && (r.Err? || id != questionId) :: records[id].Value() == old(records[id].Value())
    {
      r := RequireAuthorizedQuestion(questionId, authKey);
      if r.Err? {
        return;
      }
      EnsureTtlState(r.value, fallback, now);
    }

    /** `purge_question(question_id)`: removes that id only; an absent id is a no-op. */
    method PurgeQuestion(questionId: string)
      requires Valid()
      modifies this`records
      ensures Valid()
      ensures records == old(records) - {questionId}
    {
      records := records - {questionId};
    }
  }
}
