/** How dedup keys are spelled, and the items hooks write. */
module AttentionKeys {
  import opened Text
  import opened AttentionQueue
  import opened AttentionLaws

  function KindName(kind: Kind): string {
    match kind
    case SessionStalled => "session_stalled"
    case ScheduleFailed => "schedule_failed"
    case BudgetThreshold => "budget_threshold"
    case TaskBlocked => "task_blocked"
    case InboxBacklog => "inbox_backlog"
    case NotificationUnread => "notification_unread"
    case NotificationBacklog => "notification_backlog"
    case PermissionRequest => "permission_request"
    case Elicitation => "elicitation"
    case Notification => "notification"
  }

  /** The part of a key before its first colon. */
  function Head(key: string): string {
    if key == "" || key[0] == ':' then "" else [key[0]] + Head(key[1..])
  }

  lemma {:induction false} HeadStopsAtColon(name: string, rest: string)
    requires ':' !in name
    ensures Head(name) == name
    ensures Head(name + ":" + rest) == name
  {
    if name == "" {
      assert name + ":" + rest == ":" + rest;
    } else {
      assert name[0] in name;
      assert forall c | c in name[1..] :: c in name;
      HeadStopsAtColon(name[1..], rest);
      assert (name + ":" + rest)[1..] == name[1..] + ":" + rest;
    }
  }

  /** The kind a key tells of. */
  function KindOf(key: string): Kind {
    var head := Head(key);
    if head == KindName(ScheduleFailed) then ScheduleFailed
    else if head == KindName(BudgetThreshold) then BudgetThreshold
    else if head == KindName(TaskBlocked) then TaskBlocked
    else if head == KindName(InboxBacklog) then InboxBacklog
    else if head == KindName(NotificationUnread) then NotificationUnread
    else if head == KindName(NotificationBacklog) then NotificationBacklog
    else if head == KindName(PermissionRequest) then PermissionRequest
    else if head == KindName(Elicitation) then Elicitation
    else if head == KindName(Notification) then Notification
    else SessionStalled
  }

  /** The conditions the queue raises items for, one constructor per key the services spell. */
  datatype Condition =
    | StalledSession(session: string)
    | FailingSchedule(schedule: nat)
    | CrossedBudget(budget: nat, periodStart: string, threshold: nat)
    | BlockedTask(task: nat)
    | UntriagedInbox
    | UnreadNotification(notification: nat)
    | OtherNotifications
    | Prompt(kind: Kind, session: string, fingerprint: string)

  function ConditionKind(c: Condition): Kind {
    match c
    case StalledSession(_) => SessionStalled
    case FailingSchedule(_) => ScheduleFailed
    case CrossedBudget(_, _, _) => BudgetThreshold
    case BlockedTask(_) => TaskBlocked
    case UntriagedInbox => InboxBacklog
    case UnreadNotification(_) => NotificationUnread
    case OtherNotifications => NotificationBacklog
    case Prompt(kind, _, _) => kind
  }

  /** What follows the kind's name in the key, when anything does. */
  function KeyTail(c: Condition): Option<string> {
    match c
    case StalledSession(session) => Some(session)
    case FailingSchedule(schedule) => Some(Decimal(schedule))
    case CrossedBudget(budget, periodStart, threshold) => Some(Decimal(budget) + ":" + periodStart + ":" + Decimal(threshold))
    case BlockedTask(task) => Some(Decimal(task))
    case UntriagedInbox => None
    case UnreadNotification(notification) => Some(Decimal(notification))
    case OtherNotifications => None
    case Prompt(_, session, fingerprint) => Some(session + ":" + fingerprint)
  }

  function DedupKey(c: Condition): string {
    KindName(ConditionKind(c)) + match KeyTail(c) case None => "" case Some(tail) => ":" + tail
  }

  lemma {:induction false} KindNameIsPlain(kind: Kind)
    ensures ':' !in KindName(kind)
  {
  }

  lemma {:induction false} KindNamesDiffer(a: Kind, b: Kind)
    requires KindName(a) == KindName(b)
    ensures a == b
  {
  }

  /** A dedup key determines its kind: no two kinds ever spell the same key. */
  lemma {:induction false} KeyTellsKind(c: Condition)
    ensures KindOf(DedupKey(c)) == ConditionKind(c)
  {
    var kind, key := ConditionKind(c), DedupKey(c);
    KindNameIsPlain(kind);
    HeadStopsAtColon(KindName(kind), match KeyTail(c) case None => "" case Some(tail) => tail);
    if KeyTail(c).None? {
      assert key == KindName(kind);
    } else {
      assert key == KindName(kind) + ":" + KeyTail(c).value;
    }
    HeadNamesKind(key, kind);
  }

  lemma {:induction false} HeadNamesKind(key: string, kind: Kind)
    requires Head(key) == KindName(kind)
    ensures KindOf(key) == kind
  {
    forall k: Kind | KindName(k) == KindName(kind)
      ensures k == kind
    {
      KindNamesDiffer(k, kind);
    }
  }

  lemma {:induction false} SplitAtFirstColon(a: string, b: string, s: string, t: string)
    requires ':' !in a && ':' !in b && a + ":" + s == b + ":" + t
    ensures a == b && s == t
  {
    HeadStopsAtColon(a, s);
    HeadStopsAtColon(b, t);
    assert (a + ":" + s)[|a| + 1..] == s && (b + ":" + t)[|a| + 1..] == t;
  }

  lemma {:induction false} SameCrossing(b: nat, p: string, h: nat, b': nat, p': string, h': nat)
    requires Decimal(b) + ":" + p + ":" + Decimal(h) == Decimal(b') + ":" + p' + ":" + Decimal(h')
    ensures b == b' && p == p' && h == h'
  {
    SplitAtLast(':', Decimal(b) + ":" + p, Decimal(h), Decimal(b') + ":" + p', Decimal(h'));
    SplitAtFirstColon(Decimal(b), Decimal(b'), p, p');
    DecimalIsInjective(b, b');
    DecimalIsInjective(h, h');
  }

  lemma {:induction false} SameTail(c: Condition, d: Condition)
    requires !c.Prompt? && !d.Prompt? && ConditionKind(c) == ConditionKind(d) && KeyTail(c) == KeyTail(d)
    ensures c == d
  {
    match c
    case FailingSchedule(id) => DecimalIsInjective(id, d.schedule);
    case BlockedTask(id) => DecimalIsInjective(id, d.task);
    case UnreadNotification(id) => DecimalIsInjective(id, d.notification);
    case CrossedBudget(b, p, h) => SameCrossing(b, p, h, d.budget, d.periodStart, d.threshold);
    case _ =>
  }

  lemma {:induction false} SamePrefix(name: string, c: Option<string>, d: Option<string>)
    requires name + (match c case None => "" case Some(tail) => ":" + tail)
          == name + (match d case None => "" case Some(tail) => ":" + tail)
    ensures c == d
  {
    var s, t := match c case None => "" case Some(tail) => ":" + tail, match d case None => "" case Some(tail) => ":" + tail;
    assert (name + s)[|name|..] == s && (name + t)[|name|..] == t;
    if c.Some? && d.Some? {
      assert s[1..] == c.value && t[1..] == d.value;
    }
  }

  /** Two derived conditions spell one key only if they are the same condition. */
  lemma {:induction false} KeyNamesCondition(c: Condition, d: Condition)
    requires !c.Prompt? && !d.Prompt? && DedupKey(c) == DedupKey(d)
    ensures c == d
  {
    KeyTellsKind(c);
    KeyTellsKind(d);
    SamePrefix(KindName(ConditionKind(c)), KeyTail(c), KeyTail(d));
    SameTail(c, d);
  }

  // What one pass selects.

  datatype Crossing = Crossing(budget: nat, periodStart: string, threshold: nat)

  /** The rows behind the six producers' answers, each named by its id. */
  datatype Selected = Selected(stalled: seq<string>, failing: seq<nat>, crossed: seq<Crossing>, blocked: seq<nat>,
                               inbox: bool, unread: seq<nat>, others: bool)

  ghost predicate Distinct<T>(s: seq<T>) {
    forall i, j | 0 <= i < j < |s| :: s[i] != s[j]
  }

  /** One row per session, schedule, budget, task and notification. */
  ghost predicate OneRowEach(s: Selected) {
    && Distinct(s.stalled) && Distinct(s.failing) && Distinct(s.blocked) && Distinct(s.unread)
    && forall i, j | 0 <= i < j < |s.crossed| :: s.crossed[i].budget != s.crossed[j].budget
  }

  /** Conditions that producers state, of these kinds. */
  ghost predicate OfKinds(cs: seq<Condition>, kinds: set<Kind>) {
    forall c | c in cs :: !c.Prompt? && ConditionKind(c) in kinds
  }

  function StalledIn(s: Selected): (cs: seq<Condition>)
    ensures OfKinds(cs, {SessionStalled})
    ensures Distinct(s.stalled) ==> Distinct(cs)
  {
    seq(|s.stalled|, i requires 0 <= i < |s.stalled| => StalledSession(s.stalled[i]))
  }

  function FailingIn(s: Selected): (cs: seq<Condition>)
    ensures OfKinds(cs, {ScheduleFailed})
    ensures Distinct(s.failing) ==> Distinct(cs)
  {
    seq(|s.failing|, i requires 0 <= i < |s.failing| => FailingSchedule(s.failing[i]))
  }

  function CrossedIn(s: Selected): (cs: seq<Condition>)
    ensures OfKinds(cs, {BudgetThreshold})
    ensures (forall i, j | 0 <= i < j < |s.crossed| :: s.crossed[i].budget != s.crossed[j].budget) ==> Distinct(cs)
  {
    seq(|s.crossed|, i requires 0 <= i < |s.crossed| =>
          CrossedBudget(s.crossed[i].budget, s.crossed[i].periodStart, s.crossed[i].threshold))
  }

  function BlockedIn(s: Selected): (cs: seq<Condition>)
    ensures OfKinds(cs, {TaskBlocked})
    ensures Distinct(s.blocked) ==> Distinct(cs)
  {
    seq(|s.blocked|, i requires 0 <= i < |s.blocked| => BlockedTask(s.blocked[i]))
  }

  function UnreadIn(s: Selected): (cs: seq<Condition>)
    ensures OfKinds(cs, {NotificationUnread})
    ensures Distinct(s.unread) ==> Distinct(cs)
  {
    seq(|s.unread|, i requires 0 <= i < |s.unread| => UnreadNotification(s.unread[i]))
  }

  function OneIf(c: Condition, holds: bool): (cs: seq<Condition>)
    requires !c.Prompt?
    ensures OfKinds(cs, {ConditionKind(c)}) && Distinct(cs)
  {
    if holds then [c] else []
  }

  /** The producers in the order they are asked. */
  function ConditionsOf(s: Selected): seq<Condition> {
    StalledIn(s) + (FailingIn(s) + (CrossedIn(s) + (BlockedIn(s)
    + (OneIf(UntriagedInbox, s.inbox) + (UnreadIn(s) + OneIf(OtherNotifications, s.others))))))
  }

  lemma {:induction false} DistinctConcat(a: seq<Condition>, b: seq<Condition>, kind: Kind, kinds: set<Kind>)
    requires Distinct(a) && Distinct(b) && OfKinds(a, {kind}) && OfKinds(b, kinds) && kind !in kinds
    ensures Distinct(a + b) && OfKinds(a + b, {kind} + kinds)
  {
    forall i, j | 0 <= i < j < |a + b|
      ensures (a + b)[i] != (a + b)[j]
    {
      if i < |a| <= j {
        assert a[i] in a && b[j - |a|] in b;
      }
    }
  }

  lemma {:induction false} ConditionsDiffer(s: Selected)
    requires OneRowEach(s)
    ensures Distinct(ConditionsOf(s)) && forall c | c in ConditionsOf(s) :: !c.Prompt?
  {
    var kinds := {NotificationBacklog};
    var cs := OneIf(OtherNotifications, s.others);
    DistinctConcat(UnreadIn(s), cs, NotificationUnread, kinds);
    cs, kinds := UnreadIn(s) + cs, {NotificationUnread} + kinds;
    DistinctConcat(OneIf(UntriagedInbox, s.inbox), cs, InboxBacklog, kinds);
    cs, kinds := OneIf(UntriagedInbox, s.inbox) + cs, {InboxBacklog} + kinds;
    DistinctConcat(BlockedIn(s), cs, TaskBlocked, kinds);
    cs, kinds := BlockedIn(s) + cs, {TaskBlocked} + kinds;
    DistinctConcat(CrossedIn(s), cs, BudgetThreshold, kinds);
    cs, kinds := CrossedIn(s) + cs, {BudgetThreshold} + kinds;
    DistinctConcat(FailingIn(s), cs, ScheduleFailed, kinds);
    cs, kinds := FailingIn(s) + cs, {ScheduleFailed} + kinds;
    DistinctConcat(StalledIn(s), cs, SessionStalled, kinds);
  }

  /** Candidates spelled for these conditions, in order. */
  ghost predicate Spells(cs: seq<Candidate>, conditions: seq<Condition>) {
    && |cs| == |conditions|
    && forall i | 0 <= i < |cs| ::
         cs[i].key == DedupKey(conditions[i]) && cs[i].kind == ConditionKind(conditions[i]) && cs[i].expiresAt == None
  }

  /** What the producers can answer: candidates for the conditions of some selection. */
  ghost predicate Produced(cs: seq<Candidate>) {
    exists s :: OneRowEach(s) && Spells(cs, ConditionsOf(s))
  }

  lemma {:induction false} KeysDiffer(cs: seq<Candidate>, conditions: seq<Condition>, i: nat, j: nat)
    requires Spells(cs, conditions) && Distinct(conditions) && (forall c | c in conditions :: !c.Prompt?)
    requires i < j < |cs|
    ensures cs[i].key != cs[j].key
  {
    if cs[i].key == cs[j].key {
      assert conditions[i] in conditions && conditions[j] in conditions;
      KeyNamesCondition(conditions[i], conditions[j]);
    }
  }

  lemma {:induction false} DistinctKeysOccurOnce(cs: seq<Candidate>, key: string)
    requires forall i, j | 0 <= i < j < |cs| :: cs[i].key != cs[j].key
    ensures Occurrences(cs, key) <= 1
  {
    if cs != [] {
      var front, last := cs[..|cs| - 1], cs[|cs| - 1];
      DistinctKeysOccurOnce(front, key);
      OccursIff(front, key);
    }
  }

  lemma {:induction false} SpelledIsKeyed(cs: seq<Candidate>, conditions: seq<Condition>)
    requires Spells(cs, conditions) && forall c | c in conditions :: !c.Prompt?
    ensures IsDerivedPass(cs) && KeyedCandidates(cs, KindOf)
  {
    forall c | c in cs
      ensures IsDerived(c.kind) && c.expiresAt == None && KindOf(c.key) == c.kind
    {
      var i :| 0 <= i < |cs| && cs[i] == c;
      assert conditions[i] in conditions;
      KeyTellsKind(conditions[i]);
    }
  }

  lemma {:induction false} SpelledOnce(cs: seq<Candidate>, conditions: seq<Condition>, key: string)
    requires Spells(cs, conditions) && Distinct(conditions) && forall c | c in conditions :: !c.Prompt?
    ensures Occurrences(cs, key) <= 1
  {
    forall i, j | 0 <= i < j < |cs|
      ensures cs[i].key != cs[j].key
    {
      KeysDiffer(cs, conditions, i, j);
    }
    DistinctKeysOccurOnce(cs, key);
  }

  /** A pass produces derived kinds only, every key spelled for its kind, and no key twice. */
  lemma {:induction false} ProducedOncePerKey(cs: seq<Candidate>, key: string)
    requires Produced(cs)
    ensures IsDerivedPass(cs) && KeyedCandidates(cs, KindOf)
    ensures Occurrences(cs, key) <= 1
  {
    var s :| OneRowEach(s) && Spells(cs, ConditionsOf(s));
    ConditionsDiffer(s);
    SpelledIsKeyed(cs, ConditionsOf(s));
    SpelledOnce(cs, ConditionsOf(s), key);
  }

  // Items written from the hook handler.

  /** The texts of a hook payload the queue reads, each trimmed; the session is absent when it is not a nonempty string. */
  datatype Payload = Payload(session: Option<string>, toolUseId: string, promptId: string, toolName: string,
                             notificationType: string, message: string, cwd: string)

  function Clipped(s: string, n: nat): string {
    if |s| <= n then s else s[..n]
  }

  /** `_fingerprint`: the prompt's own id, or a digest of what it says. */
  function Fingerprint(p: Payload, digest: string -> string): string {
    if p.toolUseId != "" then Clipped(p.toolUseId, 64)
    else if p.promptId != "" then Clipped(p.promptId, 64)
    else Clipped(digest(p.toolName + "\0" + p.notificationType + "\0" + p.message), 16)
  }

  function HookKind(event: string): Option<Kind> {
    if event == "PermissionRequest" then Some(PermissionRequest)
    else if event == "Elicitation" then Some(Elicitation)
    else if event == "Notification" then Some(Notification)
    else None
  }

  /** How long an item of each hook kind is worth showing, in seconds. */
  function TimeToLive(kind: Kind): int {
    if kind == Notification then 60 * 60 else 15 * 60
  }

  /** The characters `str.splitlines()` breaks at. */
  predicate BreaksLine(c: char) {
    '\n' <= c <= '\r' || '\U{1C}' <= c <= '\U{1E}' || c in {'\U{85}', '\U{2028}', '\U{2029}'}
  }

  function FirstLine(s: string): string {
    if s == "" || BreaksLine(s[0]) then "" else [s[0]] + FirstLine(s[1..])
  }

  /** `_clip`: the first line, cut to a limit with an ellipsis in place of what was cut. */
  function OneLine(text: string, limit: nat): (r: string)
    requires limit > 0
    ensures |r| <= limit
  {
    var first := Strip(FirstLine(Strip(text)));
    if |first| <= limit then first
    else
      StripRightShortens(first[..limit - 1]);
      StripRight(first[..limit - 1]) + ['\U{2026}']
  }

  lemma {:induction false} StripRightShortens(s: string)
    ensures |StripRight(s)| <= |s|
  {
    if s != "" && IsSpace(s[|s| - 1]) {
      StripRightShortens(s[..|s| - 1]);
    }
  }

  const MAX_TITLE := 120
  const MAX_DETAIL := 200

  function TitleOf(kind: Kind, p: Payload): string {
    OneLine(if kind == PermissionRequest then
              (if p.toolName != "" then "Permission requested: " + p.toolName else "Permission requested")
            else if p.message != "" then p.message
            else if kind == Elicitation then "Claude is asking for input"
            else "Claude sent a notification", MAX_TITLE)
  }

  /** `" · ".join` of the parts that are not empty. */
  function Joined(parts: seq<string>): string {
    if parts == [] then ""
    else
      var rest, last := Joined(parts[..|parts| - 1]), parts[|parts| - 1];
      if last == "" then rest else if rest == "" then last else rest + " \U{B7} " + last
  }

  function DetailOf(p: Payload, project: Option<string>): Option<string> {
    var place := if project.Some? && project.value != "" then project.value else p.cwd;
    var detail := Joined([p.notificationType, OneLine(p.message, MAX_DETAIL), place]);
    if detail == "" then None else Some(OneLine(detail, MAX_DETAIL))
  }

  /** The session's row: its project's id and name. */
  datatype Place = Place(project: Option<int>, name: Option<string>)

  function PlaceOf(sessions: map<string, Place>, session: string): Place {
    if session in sessions then sessions[session] else Place(None, None)
  }

  /** Cutting an id meets another's exactly when they are one, or agree as far as both are kept. */
  lemma {:induction false} ClippedAlikeIff(a: string, b: string, n: nat)
    ensures Clipped(a, n) == Clipped(b, n) <==> a == b || (n <= |a| && n <= |b| && a[..n] == b[..n])
  {
  }

  /** Two prompts share a key exactly when they are of one kind and their session and fingerprint, joined by a colon, read alike.
      Where neither session holds a colon, that is one session and one fingerprint. */
  lemma {:induction false} PromptKeysMeetIff(k: Kind, s: string, f: string, k': Kind, s': string, f': string)
    ensures DedupKey(Prompt(k, s, f)) == DedupKey(Prompt(k', s', f')) <==> k == k' && s + ":" + f == s' + ":" + f'
    ensures ':' !in s && ':' !in s' ==> (s + ":" + f == s' + ":" + f' <==> s == s' && f == f')
  {
    if DedupKey(Prompt(k, s, f)) == DedupKey(Prompt(k', s', f')) {
      KeyTellsKind(Prompt(k, s, f));
      KeyTellsKind(Prompt(k', s', f'));
      SamePrefix(KindName(k), Some(s + ":" + f), Some(s' + ":" + f'));
    }
    if ':' !in s && ':' !in s' && s + ":" + f == s' + ":" + f' {
      SplitAtFirstColon(s, s', f, f');
    }
  }

  /** Prompts that carry a tool-use id, in sessions without a colon, share a key exactly when they are of one kind and session and
      their ids are one or agree on the first 64 characters; what else they say is not looked at. */
  lemma {:induction false} ToolPromptsMeetIff(k: Kind, s: string, p: Payload, k': Kind, s': string, p': Payload, digest: string -> string)
    requires p.toolUseId != "" && p'.toolUseId != "" && ':' !in s && ':' !in s'
    ensures DedupKey(Prompt(k, s, Fingerprint(p, digest))) == DedupKey(Prompt(k', s', Fingerprint(p', digest))) <==>
            && k == k' && s == s'
            && (|| p.toolUseId == p'.toolUseId
                || (64 <= |p.toolUseId| && 64 <= |p'.toolUseId| && p.toolUseId[..64] == p'.toolUseId[..64]))
  {
    PromptKeysMeetIff(k, s, Fingerprint(p, digest), k', s', Fingerprint(p', digest));
    ClippedAlikeIff(p.toolUseId, p'.toolUseId, 64);
  }

  /** Two different prompts of one key: a colon on either side of the seam. */
  lemma {:induction false} ColonMovesTheSeam(k: Kind, a: string, b: string, c: string)
    ensures DedupKey(Prompt(k, a + ":" + b, c)) == DedupKey(Prompt(k, a, b + ":" + c))
  {
    assert (a + ":" + b) + ":" + c == a + ":" + (b + ":" + c);
  }

  /** The candidate `record_hook_item` builds, unless the event or the payload is one it keeps quiet about. */
  function HookCandidate(event: string, p: Payload, digest: string -> string, project: Option<int>,
                         title: string, detail: Option<string>, t: Moment): Option<Candidate> {
    var kind := HookKind(event);
    if kind.None? || p.session.None? then None
    else
      var k := kind.value;
      Some(Candidate(k, DedupKey(Prompt(k, p.session.value, Fingerprint(p, digest))), Blocking, title, detail,
                     Subject(p.session, project, None, None, if p.toolName == "" then None else Some(p.toolName),
                             Some(event), k != Notification),
                     Some(t + TimeToLive(k))))
  }

  /** Whatever the hook sent, its item is keyed for its kind, outside the sweep's reach, and due after now. */
  lemma {:induction false} HookCandidateIsWellKeyed(event: string, p: Payload, digest: string -> string, project: Option<int>,
                                 title: string, detail: Option<string>, t: Moment)
    ensures var c := HookCandidate(event, p, digest, project, title, detail, t);
      c.Some? ==> KindOf(c.value.key) == c.value.kind && !IsDerived(c.value.kind) && !Due(c.value.expiresAt, t)
  {
    var c := HookCandidate(event, p, digest, project, title, detail, t);
    if c.Some? {
      KeyTellsKind(Prompt(c.value.kind, p.session.value, Fingerprint(p, digest)));
    }
  }

  /** A row waits under this key: the one that waited before, seen once more with its mute and first sighting kept, or a new one;
      nothing else has changed. */
  ghost predicate Waits(was: seq<Item>, now: seq<Item>, key: string, kind: Kind, title: string, t: Moment) {
    var i, j := LiveIndex(now, key), LiveIndex(was, key);
    && i.Some?
    && (forall k | 0 <= k < |was| && k != i.value :: k < |now| && now[k] == was[k])
    && var r := now[i.value];
       && r.kind == kind && r.severity == Blocking && r.title == title && r.lastSeen == t
       && r.expiresAt == Some(t + TimeToLive(kind))
       && if j.Some? then
            && i == j && |now| == |was|
            && r.seenCount == was[j.value].seenCount + 1 && r.firstSeen == was[j.value].firstSeen && r.state == was[j.value].state
          else
            && i.value == |was| && |now| == |was| + 1
            && r.seenCount == 1 && r.firstSeen == t && r.state == Open
  }

  lemma {:induction false} UpsertWaits(rows: seq<Item>, c: Candidate, t: Moment)
    requires UniqueLive(rows) && Keyed(rows, KindOf) && KindOf(c.key) == c.kind
    requires c.severity == Blocking && c.expiresAt == Some(t + TimeToLive(c.kind))
    ensures Waits(rows, Upsert(rows, c, t), c.key, c.kind, c.title, t)
  {
    UpsertKeeps(rows, c, t, KindOf);
    var at := LiveIndex(rows, c.key);
    LiveIndexIs(Upsert(rows, c, t), if at.Some? then at.value else |rows|);
  }

  /** `record_hook_item`: the key under which the prompt now waits, or nothing, quietly. */
  method RecordHookItem(queue: Queue, event: string, p: Payload, digest: string -> string, sessions: map<string, Place>,
          t: Moment) returns (key: Option<string>)
    requires UniqueLive(queue.items) && Keyed(queue.items, KindOf)
    modifies queue
    ensures key.Some? <==> HookKind(event).Some? && p.session.Some?
    ensures key.None? ==> queue.items == old(queue.items)
    ensures key.Some? ==> key.value == DedupKey(Prompt(HookKind(event).value, p.session.value, Fingerprint(p, digest)))
    ensures key.Some? ==> Waits(old(queue.items), queue.items, key.value, HookKind(event).value,
                                TitleOf(HookKind(event).value, p), t)
    ensures UniqueLive(queue.items) && Keyed(queue.items, KindOf)
  {
    var kind := HookKind(event);
    if kind.None? || p.session.None? {
      return None;
    }
    var place := PlaceOf(sessions, p.session.value);
    var title, detail := TitleOf(kind.value, p), DetailOf(p, place.name);
    var c := HookCandidate(event, p, digest, place.project, title, detail, t);
    HookCandidateIsWellKeyed(event, p, digest, place.project, title, detail, t);
    UpsertWaits(queue.items, c.value, t);
    UpsertKeeps(queue.items, c.value, t, KindOf);
    queue.items := Upsert(queue.items, c.value, t);
    return Some(c.value.key);
  }

  /** A prompt delivered again while it waits is the same row, seen once more, its clock restarted. */
  lemma {:induction false} RedeliveryRestartsTheClock(rows: seq<Item>, c: Candidate, t: Moment, c': Candidate, t': Moment)
    requires UniqueLive(rows) && c'.key == c.key
    ensures var first := Upsert(rows, c, t);
      var again := Upsert(first, c', t');
      var i := LiveIndex(first, c.key);
      && i.Some? && |again| == |first|
      && again[i.value] == Bumped(first[i.value], c', t')
      && again[i.value].expiresAt == c'.expiresAt
  {
    var first := Upsert(rows, c, t);
    UpsertKeeps(rows, c, t, key => SessionStalled);
    var at := LiveIndex(rows, c.key);
    LiveIndexIs(first, if at.Some? then at.value else |rows|);
  }

  lemma {:induction false} ExpiredKeyIsFree(rows: seq<Item>, cs: seq<Candidate>, t: Moment, kindOf: string -> Kind,
          key: string, i: nat)
    requires UniqueLive(rows) && Keyed(rows, kindOf) && KeyedCandidates(cs, kindOf) && IsDerivedPass(cs)
    requires LiveIndex(rows, key) == Some(i) && !IsDerived(rows[i].kind) && Due(rows[i].expiresAt, t)
    ensures LiveIndex(Refresh(rows, cs, t), key).None?
  {
    var before, aged := Before(rows, t), Refresh(rows, cs, t);
    RefreshLeavesHookRows(rows, cs, t, kindOf, i);
    BeforeKeeps(rows, t, kindOf);
    UpsertAllOldRows(before, cs, t);
    UpsertAllNewRows(before, cs, t);
    RefreshIs(rows, cs, t);
    NoBumpForHookKey(cs, key, rows[i].kind, kindOf);
    OccursIff(cs, key);
    forall k | 0 <= k < |aged|
      ensures !(aged[k].Live() && aged[k].key == key)
    {
      if k < |rows| && rows[k].Live() {
        BumpedAllFacts(before[k], cs, t);
        if k != i {
          assert rows[k].key != rows[i].key;
        }
      }
    }
  }

  /** Once a prompt has aged out, the next one with its key is a new row, seen once, however often the old one was. */
  lemma {:induction false} ExpiredPromptReleasesItsKey(rows: seq<Item>, cs: seq<Candidate>, t: Moment,
          kindOf: string -> Kind, c: Candidate, t': Moment, i: nat)
    requires UniqueLive(rows) && Keyed(rows, kindOf) && KeyedCandidates(cs, kindOf) && IsDerivedPass(cs)
    requires LiveIndex(rows, c.key) == Some(i) && !IsDerived(rows[i].kind) && Due(rows[i].expiresAt, t)
    ensures var aged := Refresh(rows, cs, t);
      && i < |aged| && aged[i].state == Resolved && aged[i].resolution == Some(Expired)
      && Upsert(aged, c, t') == aged + [Minted(c, t')]
  {
    RefreshLeavesHookRows(rows, cs, t, kindOf, i);
    ExpiredKeyIsFree(rows, cs, t, kindOf, c.key, i);
  }

  /** A permission prompt and a question wait a quarter of an hour for an answer, an announcement an hour for nobody; all three
      block. */
  lemma {:induction false} HookItemsSay(event: string, p: Payload, digest: string -> string, project: Option<int>,
          title: string, detail: Option<string>, t: Moment)
    requires p.session.Some?
    ensures var c := HookCandidate(event, p, digest, project, title, detail, t);
      && (c.Some? <==> event in {"PermissionRequest", "Elicitation", "Notification"})
      && (c.Some? ==>
            && c.value.severity == Blocking && c.value.subject.session == p.session && c.value.subject.project == project
            && c.value.subject.hookEvent == Some(event) && c.value.title == title && c.value.detail == detail
            && c.value.subject.requiresResponse == (event != "Notification")
            && c.value.expiresAt == Some(t + if event == "Notification" then 3600 else 900))
  {
  }

  /** A prompt is told by its tool-use id, else by its own, else by a digest of what it says. */
  lemma {:induction false} FingerprintIs(p: Payload, digest: string -> string)
    ensures p.toolUseId != "" && |p.toolUseId| <= 64 ==> Fingerprint(p, digest) == p.toolUseId
    ensures p.toolUseId == "" && p.promptId != "" && |p.promptId| <= 64 ==> Fingerprint(p, digest) == p.promptId
    ensures p.toolUseId == "" && p.promptId == "" ==>
              Fingerprint(p, digest) <= digest(p.toolName + "\0" + p.notificationType + "\0" + p.message)
              && |Fingerprint(p, digest)| <= 16
  {
  }

  /** One line of text without space at its ends. */
  predicate IsPlainLine(s: string) {
    s != "" && !IsSpace(s[0]) && !IsSpace(s[|s| - 1]) && forall i | 0 <= i < |s| :: !BreaksLine(s[i])
  }

  lemma {:induction false} FirstLineIsAll(s: string)
    requires forall i | 0 <= i < |s| :: !BreaksLine(s[i])
    ensures FirstLine(s) == s
  {
    if s != "" {
      FirstLineIsAll(s[1..]);
    }
  }

  /** A short plain line is shown as it is. */
  lemma {:induction false} PlainLineIsKept(s: string, limit: nat)
    requires IsPlainLine(s) && |s| <= limit && limit > 0
    ensures OneLine(s, limit) == s
  {
    assert Strip(s) == s;
    FirstLineIsAll(s);
  }

  /** What a person reads: which tool asks, or what was said; and beside it the type, the message and the place. */
  lemma {:induction false} ItemsSayWhatIsAsked(p: Payload, project: string)
    ensures IsPlainLine(p.toolName) && |p.toolName| <= 80 ==> TitleOf(PermissionRequest, p) == "Permission requested: " + p.toolName
    ensures IsPlainLine(p.message) && |p.message| <= 120 ==>
              TitleOf(Elicitation, p) == p.message && TitleOf(Notification, p) == p.message
    ensures (&& IsPlainLine(p.notificationType) && IsPlainLine(p.message) && IsPlainLine(project)
             && |p.notificationType| + |p.message| + |project| <= 190) ==>
              DetailOf(p, Some(project)) == Some(p.notificationType + " \U{B7} " + p.message + " \U{B7} " + project)
  {
    if IsPlainLine(p.toolName) && |p.toolName| <= 80 {
      PermissionTitle(p.toolName);
    }
    if IsPlainLine(p.message) && |p.message| <= 120 {
      PlainLineIsKept(p.message, MAX_TITLE);
    }
    if IsPlainLine(p.notificationType) && IsPlainLine(p.message) && IsPlainLine(project)
       && |p.notificationType| + |p.message| + |project| <= 190 {
      PlainLineIsKept(p.message, MAX_DETAIL);
      JoinedThree(p.notificationType, p.message, project);
    }
  }

  lemma {:induction false} PermissionTitle(tool: string)
    requires IsPlainLine(tool) && |tool| <= 80
    ensures OneLine("Permission requested: " + tool, MAX_TITLE) == "Permission requested: " + tool
  {
    var head := "Permission requested: ";
    var s := head + tool;
    assert |head| == 22 && s[0] == 'P' && s[|s| - 1] == tool[|tool| - 1];
    forall i | 0 <= i < |s|
      ensures !BreaksLine(s[i])
    {
      assert s[i] == if i < 22 then head[i] else tool[i - 22];
    }
    PlainLineIsKept(s, MAX_TITLE);
  }

  lemma {:induction false} JoinedGrows(parts: seq<string>, last: string)
    requires last != ""
    ensures Joined(parts + [last]) == if Joined(parts) == "" then last else Joined(parts) + " \U{B7} " + last
  {
    assert (parts + [last])[..|parts|] == parts;
  }

  lemma {:induction false} JoinedThree(a: string, b: string, c: string)
    requires IsPlainLine(a) && IsPlainLine(b) && IsPlainLine(c) && |a| + |b| + |c| <= 190
    ensures Joined([a, b, c]) == a + " \U{B7} " + b + " \U{B7} " + c
    ensures OneLine(Joined([a, b, c]), MAX_DETAIL) == Joined([a, b, c])
  {
    JoinedGrows([], a);
    JoinedGrows([a], b);
    JoinedGrows([a, b], c);
    assert [] + [a] == [a] && [a] + [b] == [a, b] && [a, b] + [c] == [a, b, c];
    PlainJoin(a, b);
    PlainJoin(a + " \U{B7} " + b, c);
    PlainLineIsKept(Joined([a, b, c]), MAX_DETAIL);
  }

  lemma {:induction false} PlainJoin(a: string, b: string)
    requires IsPlainLine(a) && IsPlainLine(b)
    ensures IsPlainLine(a + " \U{B7} " + b)
  {
    var dot := " \U{B7} ";
    var s := a + dot + b;
    assert |dot| == 3 && !BreaksLine(dot[0]) && !BreaksLine(dot[1]) && !BreaksLine(dot[2]);
    forall i | 0 <= i < |s|
      ensures !BreaksLine(s[i])
    {
      assert s[i] == if i < |a| then a[i] else if i < |a| + 3 then dot[i - |a|] else b[i - |a| - 3];
    }
    assert s[0] == a[0] && s[|s| - 1] == b[|b| - 1];
  }
}
