/**
 * The `ask_question` MCP tool (server/tools/ask_question.py): clean the
 * preset answers, validate the question, register it and notify the human.
 */
module AskQuestion {
  import opened Wrappers
  import opened Text
  import opened Json
  import opened Config
  import opened ContextManager
  import opened Polling
  import opened Pushover

  const EMPTY_QUESTION_ERROR: string := "Question text must not be empty"

  /** What the sanitiser keeps of one entry: nothing for None or blank text, else the stripped text. */
  function SanitizeEntry(entry: Option<string>): (r: seq<string>)
    ensures entry.None? ==> r == []
    ensures entry.Some? ==> r == KeptOption(entry.value)
  {
    if !Truthy(entry) then [] else KeptOption(entry.value)
  }

  /** The list `_sanitize_preset_answers` returns, entry by entry. */
  function Sanitized(entries: seq<Option<string>>): (r: seq<string>)
    ensures |r| <= |entries|
  {
    if entries == [] then []
    else Sanitized(entries[..|entries| - 1]) + SanitizeEntry(entries[|entries| - 1])
  }

  /**
   * `_sanitize_preset_answers(preset_answers)`: a missing list counts as
   * empty; each entry is skipped when it is None or empty, and otherwise kept
   * stripped unless nothing is left.
   */
  method SanitizePresetAnswers(presetAnswers: Option<seq<Option<string>>>) returns (cleaned: seq<string>)
    ensures cleaned == Sanitized(presetAnswers.GetOr([]))
  {
    var entries := presetAnswers.GetOr([]);
    cleaned := [];
    for i := 0 to |entries|
      invariant cleaned == Sanitized(entries[..i])
    {
      assert entries[..i + 1][..i] == entries[..i];
      var entry := entries[i];
      if !Truthy(entry) {
        continue;
      }
      var text := Strip(entry.value);
      if text != "" {
        cleaned := cleaned + [text];
      }
    }
    assert entries[..|entries|] == entries;
  }

  /** Every kept entry is non-empty and already stripped. */
  lemma {:induction false} SanitizedIsClean(entries: seq<Option<string>>)
    ensures AllClean(Sanitized(entries))
    decreases |entries|
  {
    if entries != [] {
      SanitizedIsClean(entries[..|entries| - 1]);
      if entries[|entries| - 1].Some? {
        KeptOptionIsStripped(entries[|entries| - 1].value);
      }
    }
  }

  /** Sanitising distributes over concatenation: kept entries keep their relative order. */
  lemma {:induction false} SanitizedAppend(xs: seq<Option<string>>, ys: seq<Option<string>>)
    ensures Sanitized(xs + ys) == Sanitized(xs) + Sanitized(ys)
    decreases |ys|
  {
    if ys == [] {
      assert xs + ys == xs;
    } else {
      assert (xs + ys)[..|xs + ys| - 1] == xs + ys[..|ys| - 1];
      assert (xs + ys)[|xs + ys| - 1] == ys[|ys| - 1];
      SanitizedAppend(xs, ys[..|ys| - 1]);
    }
  }

  /** The entries of a list of strings, as the tool receives them. */
  function Present(xs: seq<string>): (r: seq<Option<string>>)
    ensures |r| == |xs|
    ensures forall k | 0 <= k < |xs| :: r[k] == Some(xs[k])
  {
    seq(|xs|, k requires 0 <= k < |xs| => Some(xs[k]))
  }

  /** On a list of strings, the sanitiser and the notification's option filter keep the same items. */
  lemma {:induction false} SanitizedAgreesWithOptionItems(xs: seq<string>)
    ensures Sanitized(Present(xs)) == OptionItems(xs)
    decreases |xs|
  {
    if xs != [] {
      assert Present(xs)[..|xs| - 1] == Present(xs[..|xs| - 1]);
      SanitizedAgreesWithOptionItems(xs[..|xs| - 1]);
    }
  }

  /** Sanitising an already sanitised list changes nothing. */
  lemma SanitizeIdempotent(entries: seq<Option<string>>)
    ensures Sanitized(Present(Sanitized(entries))) == Sanitized(entries)
  {
    SanitizedIsClean(entries);
    SanitizedAgreesWithOptionItems(Sanitized(entries));
    OptionItemsOfClean(Sanitized(entries));
  }

  /** The stored presets are shown in the notification exactly as stored, in the same order. */
  lemma NotificationListsStoredPresets(entries: seq<Option<string>>)
    ensures OptionItems(Sanitized(entries)) == Sanitized(entries)
    ensures FormatOptions(Sanitized(entries)) == "" <==> Sanitized(entries) == []
  {
    SanitizedIsClean(entries);
    OptionItemsOfClean(Sanitized(entries));
  }

  /** `not question or not question.strip()`. */
  predicate BlankQuestion(question: string) {
    question == "" || Strip(question) == ""
  }

  /** The dict `ask_question` returns for the created record. */
  function AskResult(config: Config, record: RecordValue): (r: Object)
    ensures r.Keys == BuildPollMetadata(config.pollIntervalSeconds).Keys + {"question_id", "auth_key", "status", "expires_in_seconds"}
    ensures forall k | k in BuildPollMetadata(config.pollIntervalSeconds) :: r[k] == BuildPollMetadata(config.pollIntervalSeconds)[k]
    ensures r["question_id"] == JStr(record.questionId) && r["auth_key"] == JStr(record.authKey)
    ensures r["status"] == JStr("pending")
    ensures r["expires_in_seconds"] == JInt(record.ttlSeconds)
  {
    BuildPollMetadata(config.pollIntervalSeconds) + map[
      "question_id" := JStr(record.questionId),
      "auth_key" := JStr(record.authKey),
      "status" := JStr("pending"),
      "expires_in_seconds" := JInt(record.ttlSeconds)]
  }

  /**
   * `ask_question(question, preset_answers, ctx)`. `questionId` and
   * `authKey` are the identifiers the registry generates, `now` the clock,
   * and `postSucceeds` the outcome of the notification POST. The second
   * result is the notification sent for the created record, which the first
   * result does not depend on; a rejected ask sends none.
   */
  method AskQuestion(config: Config, manager: QuestionContextManager, ctx: Option<Context>,
                     question: string, presetAnswers: Option<seq<Option<string>>>,
                     questionId: string, authKey: string, now: int, postSucceeds: bool)
    returns (r: Result<Object, PyError>, notification: NotifyOutcome)
    requires manager.Valid()
    modifies manager`records
    ensures manager.Valid()
    ensures RequireApiKey(config, ctx, None).Err? ==>
      r == Err(PermissionError(API_KEY_ERROR)) && manager.records == old(manager.records)
      && notification == NotifyOutcome(None, false)
    ensures RequireApiKey(config, ctx, None).Ok? && BlankQuestion(question) ==>
      r == Err(ValueError(EMPTY_QUESTION_ERROR)) && manager.records == old(manager.records)
      && notification == NotifyOutcome(None, false)
    ensures RequireApiKey(config, ctx, None).Ok? && !BlankQuestion(question) ==>
      && questionId in manager.records
      && manager.records == old(manager.records)[questionId := manager.records[questionId]]
      && fresh(manager.records[questionId])
      && var v := manager.records[questionId].Value();
         && v == NewRecord(questionId, authKey, Strip(question), Sanitized(presetAnswers.GetOr([])), now,
                           EffectiveTtl(Some(config.questionTtlSeconds), old(manager.defaultTtlSeconds)))
         && notification == SendQuestionNotification(config, v, postSucceeds)
         && r == Ok(AskResult(config, v))
  {
    var auth := RequireApiKey(config, ctx, None);
    if auth.Err? {
      return Err(PermissionError(auth.error)), NotifyOutcome(None, false);
    }
    if question == "" || Strip(question) == "" {
      return Err(ValueError(EMPTY_QUESTION_ERROR)), NotifyOutcome(None, false);
    }
    var presets := SanitizePresetAnswers(presetAnswers);
    var record := manager.CreateQuestion(Strip(question), Some(presets), Some(config.questionTtlSeconds),
                                         questionId, authKey, now);
    notification := SendQuestionNotification(config, record.Value(), postSucceeds);
    r := Ok(AskResult(config, record.Value()));
  }

  /**
   * A newly asked question is pending exactly until its deadline, and
   * `expires_in_seconds` in the result is its TTL.
   */
  lemma CreatedQuestionIsPending(config: Config, defaultTtl: int, questionId: string, authKey: string,
                                 question: string, presets: seq<string>, createdAt: int, now: int)
    ensures var ttl := EffectiveTtl(Some(config.questionTtlSeconds), defaultTtl);
      var v := NewRecord(questionId, authKey, question, presets, createdAt, ttl);
      (v.Status(now) == Pending <==> now < createdAt + ttl)
      && AskResult(config, v)["expires_in_seconds"] == JInt(ttl)
  {
  }
}
