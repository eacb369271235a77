/** The poll metadata shared by the MCP tools (server/tools/polling.py). */
module Polling {
  import opened Wrappers
  import opened Text
  import opened Json

  const INSTRUCTIONS_PREFIX: string := "Poll the reply resource every "
  const INSTRUCTIONS_SUFFIX: string := " seconds for the answer."
  const REPLY_RESOURCE_TEMPLATE: string := "resource://get_reply/{question_id}/{auth_key}"
  const REPLY_TOOL_NAME: string := "get_reply"

  /** `POLL_INSTRUCTIONS_TEMPLATE.format(seconds=n)`. */
  function PollInstructions(n: int): (s: string)
    ensures s == INSTRUCTIONS_PREFIX + IntToString(n) + INSTRUCTIONS_SUFFIX
    ensures Contains(s, IntToString(n) + " seconds")
  {
    var digits := IntToString(n);
    var s := INSTRUCTIONS_PREFIX + digits + INSTRUCTIONS_SUFFIX;
    assert (digits + " seconds") <= s[|INSTRUCTIONS_PREFIX|..];
    s
  }

  /** `build_poll_metadata(poll_interval_seconds)`. */
  function BuildPollMetadata(n: int): (m: Object)
    ensures m.Keys == {"poll_interval_seconds", "poll_instructions", "reply_tool", "reply_resource_template"}
    ensures m["poll_interval_seconds"] == JInt(n)
    ensures m["poll_instructions"] == JStr(PollInstructions(n))
    ensures m["reply_tool"] == JStr(REPLY_TOOL_NAME)
    ensures m["reply_resource_template"] == JStr(REPLY_RESOURCE_TEMPLATE)
  {
    map[
      "poll_interval_seconds" := JInt(n),
      "poll_instructions" := JStr(PollInstructions(n)),
      "reply_tool" := JStr(REPLY_TOOL_NAME),
      "reply_resource_template" := JStr(REPLY_RESOURCE_TEMPLATE)]
  }

  /** Different intervals give different metadata: the interval can be read back from it. */
  lemma PollMetadataDeterminesInterval(n1: int, n2: int)
    requires BuildPollMetadata(n1) == BuildPollMetadata(n2)
    ensures n1 == n2
  {
    assert BuildPollMetadata(n1)["poll_interval_seconds"] == JInt(n1);
  }

  /** The instruction text names the interval, and parsing the digits there gives it back. */
  lemma PollInstructionsNameInterval(n: int)
    ensures var s := PollInstructions(n);
      && s[|INSTRUCTIONS_PREFIX|..|s| - |INSTRUCTIONS_SUFFIX|] == IntToString(n)
      && ParseInt(s[|INSTRUCTIONS_PREFIX|..|s| - |INSTRUCTIONS_SUFFIX|]) == Some(n)
  {
    var s := PollInstructions(n);
    assert s[|INSTRUCTIONS_PREFIX|..|s| - |INSTRUCTIONS_SUFFIX|] == IntToString(n);
    ParseIntRoundTrip(n);
  }
}
