/**
 * The push notification sent when a question is created
 * (server/utility/pushover.py). The POST itself is not modelled: its outcome
 * is the parameter `postSucceeds`.
 */
module Pushover {
  import opened Wrappers
  import opened Text
  import opened Config
  import opened ContextManager

  const PUSHOVER_ENDPOINT: string := "https://api.pushover.net/1/messages.json"

  /**
   * The bullet the source writes before each option. The source file holds
   * the UTF-8 bytes of U+2022 read back as Windows-1252, so the text is the
   * three characters U+00E2 U+20AC U+00A2 followed by a space.
   */
  const BULLET: string := "\U{E2}\U{20AC}\U{A2} "

  const OPTIONS_HEADER: string := "Options:\n"
  const NOTIFICATION_TITLE: string := "Agent escalation requires your input"
  const NOTIFICATION_URL_TITLE: string := "Answer now"

  /** A string the option filter keeps unchanged: non-empty, neither starting nor ending with whitespace. */
  predicate Clean(s: string) {
    s != "" && !IsSpace(s[0]) && !IsSpace(s[|s| - 1])
  }

  /** A clean string is its own strip. */
  lemma CleanIsStripped(s: string)
    requires Clean(s)
    ensures Strip(s) == s && s != ""
  {
    StripTrimmed(s);
  }

  /** What the filter makes of one option: its stripped form, or nothing when the option is blank. */
  function KeptOption(opt: string): (r: seq<string>)
    ensures |r| <= 1
  {
    if opt != "" && Strip(opt) != "" then [Strip(opt)] else []
  }

  /** An option is dropped exactly when it strips to nothing; otherwise it is kept stripped, and so clean. */
  lemma KeptOptionIsStripped(opt: string)
    ensures KeptOption(opt) == [] <==> Strip(opt) == ""
    ensures KeptOption(opt) != [] ==> KeptOption(opt) == [Strip(opt)] && Clean(Strip(opt))
  {
  }

  /** `[opt.strip() for opt in options if opt and opt.strip()]`. */
  function OptionItems(options: seq<string>): (items: seq<string>)
    ensures |items| <= |options|
  {
    if options == [] then []
    else OptionItems(options[..|options| - 1]) + KeptOption(options[|options| - 1])
  }

  /** Every item the filter keeps is clean. */
  lemma {:induction false} OptionItemsAreClean(options: seq<string>)
    ensures forall k | 0 <= k < |OptionItems(options)| :: Clean(OptionItems(options)[k])
    decreases |options|
  {
    if options != [] {
      OptionItemsAreClean(options[..|options| - 1]);
      KeptOptionIsStripped(options[|options| - 1]);
    }
  }

  /** Filtering distributes over concatenation, so the kept items stay in their original order. */
  lemma {:induction false} OptionItemsAppend(xs: seq<string>, ys: seq<string>)
    ensures OptionItems(xs + ys) == OptionItems(xs) + OptionItems(ys)
    decreases |ys|
  {
    if ys == [] {
      assert xs + ys == xs;
    } else {
      assert (xs + ys)[..|xs + ys| - 1] == xs + ys[..|ys| - 1];
      assert (xs + ys)[|xs + ys| - 1] == ys[|ys| - 1];
      OptionItemsAppend(xs, ys[..|ys| - 1]);
    }
  }

  /** Every prefix of a sequence of clean strings is clean. */
  predicate AllClean(options: seq<string>) {
    forall k | 0 <= k < |options| :: Clean(options[k])
  }

  lemma AllCleanFront(options: seq<string>)
    requires options != [] && AllClean(options)
    ensures AllClean(options[..|options| - 1])
    ensures KeptOption(options[|options| - 1]) == [options[|options| - 1]]
  {
    CleanIsStripped(options[|options| - 1]);
  }

  /** The filter run on a front and its last element. */
  lemma OptionItemsSnoc(options: seq<string>)
    requires options != []
    requires OptionItems(options[..|options| - 1]) == options[..|options| - 1]
    requires KeptOption(options[|options| - 1]) == [options[|options| - 1]]
    ensures OptionItems(options) == options
  {
    SplitLast(options);
  }

  /** Options that are already clean pass through unchanged. */
  lemma {:induction false} OptionItemsOfClean(options: seq<string>)
    requires AllClean(options)
    ensures OptionItems(options) == options
    decreases |options|
  {
    if options != [] {
      AllCleanFront(options);
      OptionItemsOfClean(options[..|options| - 1]);
      OptionItemsSnoc(options);
    }
  }

  /** What the filter keeps of each option, position by position. */
  function KeptLists(options: seq<string>): (ls: seq<seq<string>>)
    ensures |ls| == |options|
  {
    seq(|options|, k requires 0 <= k < |options| => KeptOption(options[k]))
  }

  /** `x` occurs in one of the lists. */
  ghost predicate InSome<T>(ls: seq<seq<T>>, x: T) {
    exists k | 0 <= k < |ls| :: x in ls[k]
  }

  /** `x` occurs in one of the lists iff it occurs in one of the front or in the last. */
  lemma InSomeSnoc<T>(ls: seq<seq<T>>, x: T)
    requires ls != []
    ensures InSome(ls, x) <==> InSome(ls[..|ls| - 1], x) || x in ls[|ls| - 1]
  {
    var init := ls[..|ls| - 1];
    if InSome(init, x) {
      var k :| 0 <= k < |init| && x in init[k];
      assert ls[k] == init[k];
    }
    if InSome(ls, x) && x !in ls[|ls| - 1] {
      var k :| 0 <= k < |ls| && x in ls[k];
      assert k < |init| && init[k] == ls[k];
    }
  }

  /** An item is shown iff it is what the filter keeps of some option. */
  lemma {:induction false} OptionItemsMembership(options: seq<string>, s: string)
    ensures s in OptionItems(options) <==> InSome(KeptLists(options), s)
    decreases |options|
  {
    if options != [] {
      var init := options[..|options| - 1];
      OptionItemsMembership(init, s);
      assert KeptLists(options)[..|options| - 1] == KeptLists(init) by {
        forall k | 0 <= k < |init|
          ensures KeptLists(options)[k] == KeptLists(init)[k]
        {
          assert options[k] == init[k];
        }
      }
      InSomeSnoc(KeptLists(options), s);
    }
  }

  /** One bullet line per item, in order. */
  function BulletLines(items: seq<string>): (lines: seq<string>)
    ensures |lines| == |items|
    ensures forall k | 0 <= k < |items| :: lines[k] == BULLET + items[k]
  {
    seq(|items|, k requires 0 <= k < |items| => BULLET + items[k])
  }

  /**
   * `_format_options(options)`: the header, then one bullet line per kept
   * item. The lines follow the items in order (`BulletLines`), and the items
   * follow the options in order (`OptionItemsAppend`).
   */
  function FormatOptions(options: seq<string>): (block: string)
    ensures block == "" <==> OptionItems(options) == []
    ensures block != "" ==> OPTIONS_HEADER <= block
  {
    var items := OptionItems(options);
    if items == [] then ""
    else OPTIONS_HEADER + Join("\n", BulletLines(items))
  }

  /** `p + t` contains whatever `t` contains. */
  lemma ContainsInSuffix(p: string, t: string, sub: string)
    requires Contains(t, sub)
    ensures Contains(p + t, sub)
  {
    var i :| 0 <= i <= |t| && sub <= t[i..];
    assert (p + t)[|p| + i..] == t[i..];
  }

  /** Every joined element occurs in the joined text. */
  lemma {:induction false} JoinContainsElement(sep: string, xs: seq<string>, k: nat)
    requires k < |xs|
    ensures Contains(Join(sep, xs), xs[k])
    decreases |xs|
  {
    var j := Join(sep, xs);
    if |xs| == 1 || k == 0 {
      assert xs[k] <= j[0..];
    } else {
      JoinContainsElement(sep, xs[1..], k - 1);
      ContainsInSuffix(xs[0] + sep, Join(sep, xs[1..]), xs[k]);
    }
  }

  /** Every kept option appears in the block, behind a bullet. */
  lemma FormatOptionsShowsEveryItem(options: seq<string>, k: nat)
    requires k < |OptionItems(options)|
    ensures Contains(FormatOptions(options), BULLET + OptionItems(options)[k])
  {
    var items := OptionItems(options);
    JoinContainsElement("\n", BulletLines(items), k);
    ContainsInSuffix(OPTIONS_HEADER, Join("\n", BulletLines(items)), BULLET + items[k]);
  }

  /** The message body: the question alone, or the question and the options block separated by a blank line. */
  function Message(question: string, options: seq<string>): (m: string)
    ensures FormatOptions(options) == "" ==> m == question
    ensures FormatOptions(options) != "" ==> m == question + "\n\n" + FormatOptions(options)
  {
    var block := FormatOptions(options);
    assert Join("\n\n", [question, block]) == question + "\n\n" + Join("\n\n", [block]);
    Join("\n\n", if block != "" then [question, block] else [question])
  }

  /** The form fields of the POST. */
  function NotificationPayload(config: Config, token: string, user: string, record: RecordValue): (p: map<string, string>)
    ensures p.Keys == {"token", "user", "message", "title", "url", "url_title"}
    ensures p["token"] == token && p["user"] == user
    ensures p["message"] == Message(record.question, record.presetAnswers)
    ensures p["url"] == BuildReviewUrl(config, record.authKey, record.questionId)
    ensures p["title"] == NOTIFICATION_TITLE && p["url_title"] == NOTIFICATION_URL_TITLE
  {
    map[
      "token" := token,
      "user" := user,
      "message" := Message(record.question, record.presetAnswers),
      "title" := NOTIFICATION_TITLE,
      "url" := BuildReviewUrl(config, record.authKey, record.questionId),
      "url_title" := NOTIFICATION_URL_TITLE]
  }

  /** What `send_question_notification` does: the request it would send, and the boolean it returns. */
  datatype NotifyOutcome = NotifyOutcome(request: Option<map<string, string>>, sent: bool)

  /**
   * `send_question_notification(config, record)`. Without both credentials
   * nothing is sent and the result is false; otherwise the payload is posted
   * and the result is whether the post succeeded (a failure is reported as
   * false, never raised).
   */
  function SendQuestionNotification(config: Config, record: RecordValue, postSucceeds: bool): (o: NotifyOutcome)
    ensures !Truthy(config.pushoverToken) || !Truthy(config.pushoverUser) ==> o == NotifyOutcome(None, false)
    ensures Truthy(config.pushoverToken) && Truthy(config.pushoverUser) ==>
      && o.request == Some(NotificationPayload(config, config.pushoverToken.value, config.pushoverUser.value, record))
      && o.sent == postSucceeds
    ensures o.sent ==> o.request.Some?
  {
    if !Truthy(config.pushoverToken) || !Truthy(config.pushoverUser) then NotifyOutcome(None, false)
    else
      var payload := NotificationPayload(config, config.pushoverToken.value, config.pushoverUser.value, record);
      NotifyOutcome(Some(payload), postSucceeds)
  }

  /** The notification links to the question's own review URL, whatever its options. */
  lemma NotificationLinksToReview(config: Config, record: RecordValue, postSucceeds: bool)
    requires SendQuestionNotification(config, record, postSucceeds).request.Some?
    ensures var p := SendQuestionNotification(config, record, postSucceeds).request.value;
      && p["url"] == config.serverUrl + "/answer_question/" + record.authKey + "/" + record.questionId
      && Contains(p["message"], record.question)
  {
    var m := Message(record.question, record.presetAnswers);
    assert record.question <= m[0..];
  }

  /** A single clean option is kept as it is. */
  lemma SingleOptionItems(option: string)
    requires Clean(option)
    ensures OptionItems([option]) == [option]
  {
    CleanIsStripped(option);
    assert [option][..0] == [];
  }

  /** A single clean option gives the header and one bullet line. */
  lemma SingleOptionBlock(option: string)
    requires Clean(option)
    ensures FormatOptions([option]) == OPTIONS_HEADER + BULLET + option
  {
    SingleOptionItems(option);
    assert BulletLines([option]) == [BULLET + option];
  }

  /** With one option the message is the question, a blank line, the header and one bullet line. */
  lemma SingleOptionMessage(question: string, option: string)
    requires Clean(option)
    ensures Message(question, [option]) == question + "\n\n" + OPTIONS_HEADER + BULLET + option
  {
    SingleOptionBlock(option);
  }
}
