/**
 * The decision logic of the human review page (server/flask_server.py,
 * `answer_question`): look the question up with the lazy TTL step, show the
 * expiry notice, pick the custom or preset answer on POST, and commit it
 * through the registry. Rendering is reduced to the page kind and status.
 */
module FlaskServer {
  import opened Wrappers
  import opened Text
  import opened Config
  import opened ContextManager

  const EXPIRED_MESSAGE: string := "This request has expired and can no longer be answered."
  const CHOICE_ERROR: string := "Please choose a preset answer or provide a custom response."

  /** A route segment: non-empty text without '/', as Flask's default converter accepts. */
  predicate Segment(s: string) {
    s != [] && '/' !in s
  }

  /** Position of the first '/' in `s`, or `|s|` when there is none. */
  function SlashIndex(s: string): (i: nat)
    ensures i <= |s|
    ensures '/' !in s[..i]
    ensures i < |s| ==> s[i] == '/'
  {
    if s == [] then 0
    else if s[0] == '/' then 0
    else
      var i := 1 + SlashIndex(s[1..]);
      assert s[..i] == [s[0]] + s[1..][..i - 1];
      i
  }

  /** The route `/answer_question/<auth_key>/<question_id>`: the two segments of a matching path. */
  function MatchAnswerRoute(path: string): (m: Option<(string, string)>)
    ensures m.Some? ==> Segment(m.value.0) && Segment(m.value.1) && path == ReviewPath(m.value.0, m.value.1)
  {
    if !(ROUTE_PREFIX <= path) then None
    else
      var rest := path[|ROUTE_PREFIX|..];
      var i := SlashIndex(rest);
      if 0 < i < |rest| && Segment(rest[i + 1..]) then
        assert rest == rest[..i] + "/" + rest[i + 1..];
        assert path == ROUTE_PREFIX + rest;
        Some((rest[..i], rest[i + 1..]))
      else None
  }

  /** The route gives back exactly the key and id the review URL was built from. */
  lemma RouteRoundTrip(authKey: string, questionId: string)
    requires Segment(authKey) && Segment(questionId)
    ensures MatchAnswerRoute(ReviewPath(authKey, questionId)) == Some((authKey, questionId))
  {
    var path := ReviewPath(authKey, questionId);
    var rest := path[|ROUTE_PREFIX|..];
    assert rest == authKey + "/" + questionId;
    SlashIndexOfJoin(authKey, questionId);
    assert rest[..|authKey|] == authKey;
    assert rest[|authKey| + 1..] == questionId;
  }

  /** The first '/' of `a + "/" + b` is the separator when `a` has none. */
  lemma {:induction false} SlashIndexOfJoin(a: string, b: string)
    requires '/' !in a
    ensures SlashIndex(a + "/" + b) == |a|
    decreases |a|
  {
    if a != [] {
      assert (a + "/" + b)[1..] == a[1..] + "/" + b;
      assert a[0] in a;
      SlashIndexOfJoin(a[1..], b);
    }
  }

  /** The form fields of a POST: `selected_answer` and `custom_answer`, each possibly absent. */
  datatype Form = Form(selectedAnswer: Option<string>, customAnswer: Option<string>)

  /**
   * The answer chosen on POST: a custom answer that is non-blank after
   * stripping wins; otherwise a non-empty selected preset; otherwise none.
   */
  function ChooseAnswer(form: Form): (chosen: Option<string>)
    ensures Strip(form.customAnswer.GetOr("")) != "" ==> chosen == Some(Strip(form.customAnswer.GetOr("")))
    ensures Strip(form.customAnswer.GetOr("")) == "" && Truthy(form.selectedAnswer) ==> chosen == form.selectedAnswer
    ensures chosen.None? <==> Strip(form.customAnswer.GetOr("")) == "" && !Truthy(form.selectedAnswer)
  {
    var custom := Strip(form.customAnswer.GetOr(""));
    if custom != "" then Some(custom)
    else if Truthy(form.selectedAnswer) then form.selectedAnswer
    else None
  }

  /** What the route renders. */
  datatype Page =
    | NotFound
    | ExpiredNotice(message: string)
    | ChoiceError(status: Status, error: string)
    | AnswerForm(status: Status, submitted: bool)

  /**
   * `answer_question(auth_key, question_id)` for a GET (`post` is None) or
   * a POST with its form. `now` stands for the clock the request reads.
   */
  method AnswerQuestionPage(config: Config, manager: QuestionContextManager, authKey: string, questionId: string,
                            post: Option<Form>, now: int)
    returns (page: Page)
    requires manager.Valid()
    modifies manager.records.Values
    ensures manager.Valid()
    ensures manager.RequireAuthorizedQuestion(questionId, authKey).Err? ==>
      && page == NotFound
      && forall id | id in manager.records :: manager.records[id].Value() == old(manager.records[id].Value())
    ensures manager.RequireAuthorizedQuestion(questionId, authKey).Ok? ==>
      var before := old(manager.records[questionId].Value());
      var read := before.TtlApplied(config.fallbackAnswer, now);
      var after := manager.records[questionId].Value();
      && (forall id | id in manager.records && id != questionId :: manager.records[id].Value() == old(manager.records[id].Value()))
      && (read.Status(now) == Expired ==> page == ExpiredNotice(EXPIRED_MESSAGE) && after == read)
      && (read.Status(now) != Expired && post.None? ==> page == AnswerForm(read.Status(now), false) && after == read)
      && (read.Status(now) != Expired && post.Some? && ChooseAnswer(post.value).None? ==>
            page == ChoiceError(read.Status(now), CHOICE_ERROR) && after == read)
      && (read.Status(now) != Expired && post.Some? && ChooseAnswer(post.value).Some? ==>
            && after == read.AnswerApplied(Strip(ChooseAnswer(post.value).value), config.fallbackAnswer, now)
            && page == AnswerForm(after.Status(now), true))
    ensures page.AnswerForm? ==> page.status == Pending || page.status == Answered
    ensures page.AnswerForm? && page.submitted ==> page.status == Answered
  {
    var lookup := manager.GetAuthorizedQuestionWithTtl(questionId, authKey, config.fallbackAnswer, now);
    if lookup.Err? {
      return NotFound;
    }
    var record := lookup.value;
    var status := record.Value().Status(now);
    if status == Expired {
      return ExpiredNotice(EXPIRED_MESSAGE);
    }
    if post.None? {
      return AnswerForm(status, false);
    }
    var chosen := ChooseAnswer(post.value);
    if chosen.None? {
      return ChoiceError(status, CHOICE_ERROR);
    }
    var committed := manager.AnswerQuestion(questionId, authKey, Strip(chosen.value), config.fallbackAnswer, now);
    assert committed.Ok?;
    SubmissionOnLiveQuestionIsAnswered(record.Value(), Strip(chosen.value), config.fallbackAnswer, now);
    page := AnswerForm(committed.value.Value().Status(now), true);
  }

  /** A non-blank custom answer wins over any selected preset, and is stored stripped. */
  lemma CustomAnswerWins(selected: Option<string>, custom: string)
    requires Strip(custom) != ""
    ensures ChooseAnswer(Form(selected, Some(custom))) == Some(Strip(custom))
    ensures Strip(ChooseAnswer(Form(selected, Some(custom))).value) == Strip(custom)
  {
    StripIdempotent(custom);
  }

  /**
   * Once the question has an answer, a POST leaves the stored answer as it
   * was: a second submission never overwrites the first.
   */
  lemma SecondSubmissionKeepsAnswer(read: RecordValue, answer: string, fallback: string, now: int)
    requires read.IsAnswered()
    ensures read.AnswerApplied(answer, fallback, now) == read
  {
  }

  /**
   * A submission on a question that is not expired always leaves it
   * answered: either the new answer is stored, or the earlier one stays.
   */
  lemma SubmissionOnLiveQuestionIsAnswered(read: RecordValue, answer: string, fallback: string, now: int)
    requires read.Status(now) != Expired
    ensures read.AnswerApplied(answer, fallback, now).Status(now) == Answered
  {
  }

  /** A non-empty preset is chosen whenever the custom answer strips to nothing. */
  lemma PresetChosenWithoutCustom(preset: string, custom: Option<string>)
    requires preset != "" && Strip(custom.GetOr("")) == ""
    ensures ChooseAnswer(Form(Some(preset), custom)) == Some(preset)
  {
    assert Truthy(Some(preset));
  }

  /** An open question before its deadline takes even the empty answer, and is then answered. */
  lemma EmptyAnswerIsStored(read: RecordValue, fallback: string, now: int)
    requires read.IsOpen() && !read.HasExpired(now)
    ensures read.AnswerApplied("", fallback, now).answer == Some("")
    ensures read.AnswerApplied("", fallback, now).Status(now) == Answered
  {
    assert read.TtlApplied(fallback, now) == read;
  }

  /**
   * The guard tests the selected preset before stripping it: a non-empty
   * whitespace-only preset, with no usable custom answer, passes the guard
   * and is stored as an empty answer, which then counts as answered.
   */
  lemma WhitespacePresetStoresEmptyAnswer(read: RecordValue, preset: string, custom: Option<string>,
                                          fallback: string, now: int)
    requires read.IsOpen() && !read.HasExpired(now)
    requires preset != "" && AllSpace(preset)
    requires Strip(custom.GetOr("")) == ""
    ensures ChooseAnswer(Form(Some(preset), custom)) == Some(preset)
    ensures read.AnswerApplied(Strip(preset), fallback, now).answer == Some("")
    ensures read.AnswerApplied(Strip(preset), fallback, now).Status(now) == Answered
  {
    PresetChosenWithoutCustom(preset, custom);
    StripEmptyIffAllSpace(preset);
    EmptyAnswerIsStored(read, fallback, now);
  }
}
