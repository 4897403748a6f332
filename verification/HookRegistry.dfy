/** The hook events the sidecar ingests and the commands it mints for them. */
module HookRegistry {
  import opened Text

  datatype Tier = Core | Extended

  datatype HookEvent = HookEvent(event: string, path: string, tier: Tier, discardsStdout: bool)

  const HOOK_EVENTS: seq<HookEvent> := [
    HookEvent("SessionStart", "/api/v1/hooks/session-start", Core, true),
    HookEvent("UserPromptSubmit", "/api/v1/hooks/user-prompt", Core, true),
    HookEvent("PreToolUse", "/api/v1/hooks/pre-tool", Core, false),
    HookEvent("PostToolUse", "/api/v1/hooks/post-tool", Core, true),
    HookEvent("Stop", "/api/v1/hooks/stop", Core, true),
    HookEvent("SessionEnd", "/api/v1/hooks/session-end", Core, true),
    HookEvent("Notification", "/api/v1/hooks/event/notification", Extended, true),
    HookEvent("Elicitation", "/api/v1/hooks/event/elicitation", Extended, true),
    HookEvent("PermissionRequest", "/api/v1/hooks/event/permission-request", Extended, true),
    HookEvent("PermissionDenied", "/api/v1/hooks/event/permission-denied", Extended, true),
    HookEvent("PostToolUseFailure", "/api/v1/hooks/event/post-tool-failure", Extended, true),
    HookEvent("SubagentStart", "/api/v1/hooks/event/subagent-start", Extended, true),
    HookEvent("SubagentStop", "/api/v1/hooks/event/subagent-stop", Extended, true),
    HookEvent("TaskCreated", "/api/v1/hooks/event/task-created", Extended, true),
    HookEvent("TaskCompleted", "/api/v1/hooks/event/task-completed", Extended, true),
    HookEvent("StopFailure", "/api/v1/hooks/event/stop-failure", Extended, true),
    HookEvent("PreCompact", "/api/v1/hooks/event/pre-compact", Extended, true),
    HookEvent("PostCompact", "/api/v1/hooks/event/post-compact", Extended, true),
    HookEvent("CwdChanged", "/api/v1/hooks/event/cwd-changed", Extended, true),
    HookEvent("DirectoryAdded", "/api/v1/hooks/event/directory-added", Extended, true),
    HookEvent("PreModelSwitch", "/api/v1/hooks/event/pre-model-switch", Extended, true),
    HookEvent("PostModelSwitch", "/api/v1/hooks/event/post-model-switch", Extended, true)
  ]

  predicate DistinctEvents(specs: seq<HookEvent>) {
    forall i, j | 0 <= i < j < |specs| :: specs[i].event != specs[j].event
  }

  lemma {:induction false} RegistryIsDistinct()
    ensures |HOOK_EVENTS| == 22
    ensures DistinctEvents(HOOK_EVENTS)
  {
    FirstNamesDiffer();
    MiddleNamesDiffer();
    LastNamesDiffer();
  }

  lemma {:induction false} FirstNamesDiffer()
    ensures |HOOK_EVENTS| == 22
    ensures forall i, j | 0 <= i < 4 && i < j < 22 :: HOOK_EVENTS[i].event != HOOK_EVENTS[j].event
  {
  }

  lemma {:induction false} MiddleNamesDiffer()
    ensures forall i, j | 4 <= i < 10 && i < j < |HOOK_EVENTS| :: HOOK_EVENTS[i].event != HOOK_EVENTS[j].event
  {
  }

  lemma {:induction false} LastNamesDiffer()
    ensures forall i, j | 10 <= i < j < |HOOK_EVENTS| :: HOOK_EVENTS[i].event != HOOK_EVENTS[j].event
  {
  }

  const MARKER_HEADER := "X-Codenest-Hook"

  /** The words every generation of the command opens with. */
  function CurlOpening(fail: bool): (s: string)
    ensures s != "" && s[0] == 'c'
  {
    "curl -s" + (if fail then " --fail" else "") + " --max-time 5"
    + " -X POST -H 'Content-Type: application/json' "
  }

  /** `_curl_command_for_url`, piece by piece: the words before the marker, the marker header, the rest. */
  function CurlWords(discard: bool): (s: string)
    ensures s != "" && s[0] == 'c'
  {
    CurlOpening(!discard) + "-H '"
  }

  function CurlSuffix(discard: bool): (s: string)
    ensures s != "" && s[0] == ' ' && s[|s| - 1] == 'e'
  {
    if discard then " >/dev/null 2>&1 || true" else " 2>/dev/null || true"
  }

  function CurlPrefix(discard: bool): string {
    CurlWords(discard) + MARKER_HEADER + ": 1' --data-binary @- "
  }

  function CurlCommandForUrl(url: string, discard: bool): string {
    CurlPrefix(discard) + url + CurlSuffix(discard)
  }

  function CurlCommand(base: string, spec: HookEvent): string {
    CurlCommandForUrl(base + spec.path, spec.discardsStdout)
  }

  lemma {:induction false} CurlIsSolid(url: string, discard: bool)
    ensures Strip(CurlCommandForUrl(url, discard)) == CurlCommandForUrl(url, discard)
  {
  }

  lemma {:induction false} CurlCarriesMarker(url: string, discard: bool)
    ensures Contains(CurlCommandForUrl(url, discard), MARKER_HEADER)
  {
    ConcatContainsMiddle(CurlWords(discard), MARKER_HEADER, ": 1' --data-binary @- ");
    ContainsStays(CurlPrefix(discard), MARKER_HEADER, url);
    ContainsStays(CurlPrefix(discard) + url, MARKER_HEADER, CurlSuffix(discard));
  }

  /** The one hook whose answer Claude Code reads is the one before a tool runs. */
  lemma {:induction false} OnlyPreToolUseAnswers(spec: HookEvent)
    requires spec in HOOK_EVENTS
    ensures !spec.discardsStdout <==> spec.event == "PreToolUse"
  {
  }

  /** Its command keeps standard output, which every other discards, and fails on an error answer, which no other does. */
  lemma {:induction false} OutputIsDiscardedIff(discard: bool)
    ensures OccursAt(CurlSuffix(discard), " >/dev/null", 0) <==> discard
    ensures OccursAt(CurlSuffix(discard), " 2>/dev/null", 0) <==> !discard
    ensures "curl -s --fail" <= CurlWords(discard) <==> !discard
  {
    assert CurlSuffix(discard)[1] == if discard then '>' else '2';
    FailsIff(!discard);
  }

  lemma {:induction false} FailsIff(fail: bool)
    ensures |CurlOpening(fail)| > 14
    ensures "curl -s --fail" <= CurlOpening(fail) <==> fail
  {
    if fail {
      assert "curl -s" + " --fail" == "curl -s --fail";
    } else {
      assert CurlOpening(false)[10] == 'm';
    }
  }
}
