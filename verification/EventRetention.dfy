/** Pruning rows past their window: batches of bounded deletes that add up to one. */
module EventRetention {
  import opened Timestamps

  const BATCH_ROWS := 5000

  function Matching<R>(rows: seq<R>, expired: R -> bool): nat {
    if rows == [] then 0 else Matching(rows[..|rows| - 1], expired) + if expired(rows[|rows| - 1]) then 1 else 0
  }

  /** One big delete. */
  function Without<R>(rows: seq<R>, expired: R -> bool): seq<R> {
    if rows == [] then []
    else
      var rest, last := Without(rows[..|rows| - 1], expired), rows[|rows| - 1];
      if expired(last) then rest else rest + [last]
  }

  lemma {:induction false} NothingMatching<R>(rows: seq<R>, expired: R -> bool)
    ensures Matching(rows, expired) == 0 <==> Without(rows, expired) == rows
    ensures Matching(rows, expired) == 0 <==> forall r | r in rows :: !expired(r)
    ensures |Without(rows, expired)| == |rows| - Matching(rows, expired)
  {
    if rows != [] {
      var rest, last := rows[..|rows| - 1], rows[|rows| - 1];
      NothingMatching(rest, expired);
      assert rows == rest + [last];
    }
  }

  lemma {:induction false} MatchingConcat<R>(a: seq<R>, b: seq<R>, expired: R -> bool)
    ensures Matching(a + b, expired) == Matching(a, expired) + Matching(b, expired)
  {
    if b == [] {
      assert a + b == a;
    } else {
      var n := |b| - 1;
      MatchingConcat(a, b[..n], expired);
      var both := a + b;
      assert both[..|both| - 1] == a + b[..n];
    }
  }

  /** Deleting twice by the same test is deleting once, and the second time finds nothing. */
  lemma {:induction false} WithoutTwice<R>(rows: seq<R>, expired: R -> bool)
    ensures Without(Without(rows, expired), expired) == Without(rows, expired)
    ensures Matching(Without(rows, expired), expired) == 0
  {
    if rows != [] {
      var rest, last := rows[..|rows| - 1], rows[|rows| - 1];
      WithoutTwice(rest, expired);
      var kept := Without(rest, expired);
      if !expired(last) {
        assert (kept + [last])[..|kept|] == kept;
      }
    }
  }

  class Table<R> {
    var rows: seq<R>

    constructor (rows: seq<R>)
      ensures this.rows == rows
    {
      this.rows := rows;
    }

    /** `DELETE ... WHERE id IN (SELECT id ... LIMIT 5000)`: which of the matching rows go first is the database's choice. */
    method DeleteBatch(expired: R -> bool) returns (removed: nat)
      modifies this
      ensures removed == if Matching(old(rows), expired) < BATCH_ROWS then Matching(old(rows), expired) else BATCH_ROWS
      ensures Without(rows, expired) == Without(old(rows), expired)
      ensures Matching(rows, expired) == Matching(old(rows), expired) - removed
      ensures multiset(rows) <= multiset(old(rows))
    {
      removed := 0;
      var all, kept := rows, [];
      var quota := Matching(all, expired);
      if quota > BATCH_ROWS {
        quota := BATCH_ROWS;
      }
      for i := 0 to |all|
        invariant removed <= quota <= removed + Matching(all[i..], expired)
        invariant Without(kept, expired) == Without(all[..i], expired)
        invariant Matching(kept, expired) == Matching(all[..i], expired) - removed
        invariant multiset(kept) <= multiset(all[..i])
      {
        assert all[..i + 1][..i] == all[..i];
        assert all[..i + 1] == all[..i] + [all[i]];
        assert all[i..] == [all[i]] + all[i + 1..];
        MatchingConcat([all[i]], all[i + 1..], expired);
        assert (kept + [all[i]])[..|kept|] == kept;
        var take := *;
        if expired(all[i]) && removed < quota && (take || quota - removed == Matching(all[i..], expired)) {
          removed := removed + 1;
        } else {
          kept := kept + [all[i]];
        }
      }
      assert all[..|all|] == all;
      rows := kept;
    }

    /** `_prune_class`. */
    method Prune(expired: R -> bool) returns (deleted: nat, batches: nat)
      modifies this
      ensures rows == Without(old(rows), expired)
      ensures deleted == Matching(old(rows), expired)
      ensures batches == (deleted + BATCH_ROWS - 1) / BATCH_ROWS
    {
      deleted, batches := 0, 0;
      while true
        invariant Without(rows, expired) == Without(old(rows), expired)
        invariant Matching(rows, expired) == Matching(old(rows), expired) - deleted
        invariant deleted == batches * BATCH_ROWS
        decreases Matching(rows, expired)
      {
        var removed := DeleteBatch(expired);
        if removed == 0 {
          break;
        }
        deleted, batches := deleted + removed, batches + 1;
        if removed < BATCH_ROWS {
          break;
        }
      }
      NothingMatching(rows, expired);
    }
  }

  // The classes.

  datatype Class = Ephemeral | Tool | Session | Otlp | OtlpSpans

  const TOOL_EVENTS := {"PreToolUse", "PostToolUse", "PermissionRequest", "PermissionDenied", "PostToolUseFailure"}

  datatype Event = Event(id: int, session: string, kind: string, at: string)

  /** A row of either receiver table: it ages on the last export that touched it. */
  datatype Series = Series(id: int, lastSeen: string)

  /** Each class's `where_sql` on `agent_events`; the other two classes name other tables. */
  predicate InClass(e: Event, c: Class, scratch: set<string>) {
    match c
    case Ephemeral => e.session in scratch
    case Tool => e.kind in TOOL_EVENTS && e.session !in scratch
    case Session => e.kind !in TOOL_EVENTS && e.session !in scratch
    case _ => false
  }

  function ClassOf(e: Event, scratch: set<string>): Class {
    if e.session in scratch then Ephemeral else if e.kind in TOOL_EVENTS then Tool else Session
  }

  /** The classes on `agent_events` are disjoint and exhaustive. */
  lemma {:induction false} ExactlyOneClass(e: Event, c: Class, scratch: set<string>)
    ensures InClass(e, c, scratch) <==> c == ClassOf(e, scratch)
  {
  }

  type Cutoffs = Class -> string

  function Expired(c: Class, cutoffs: Cutoffs, scratch: set<string>): Event -> bool {
    (e: Event) => Below(Spaced(e.at), cutoffs(c)) && InClass(e, c, scratch)
  }

  /** An event past the cutoff of the one class it is in. */
  function PastWindow(cutoffs: Cutoffs, scratch: set<string>): Event -> bool {
    (e: Event) => Below(Spaced(e.at), cutoffs(ClassOf(e, scratch)))
  }

  function Stale(cutoff: string): Series -> bool {
    (s: Series) => Below(Spaced(s.lastSeen), cutoff)
  }

  lemma {:induction false} ThreePrunesAreOne(events: seq<Event>, cutoffs: Cutoffs, scratch: set<string>)
    ensures var e1 := Without(events, Expired(Ephemeral, cutoffs, scratch));
      var e2 := Without(e1, Expired(Tool, cutoffs, scratch));
      && Without(e2, Expired(Session, cutoffs, scratch)) == Without(events, PastWindow(cutoffs, scratch))
      && Matching(events, Expired(Ephemeral, cutoffs, scratch)) + Matching(e1, Expired(Tool, cutoffs, scratch))
         + Matching(e2, Expired(Session, cutoffs, scratch)) == Matching(events, PastWindow(cutoffs, scratch))
  {
    if events != [] {
      var rest, last := events[..|events| - 1], events[|events| - 1];
      ThreePrunesAreOne(rest, cutoffs, scratch);
      var ephemeral, tool, session := Expired(Ephemeral, cutoffs, scratch), Expired(Tool, cutoffs, scratch), Expired(Session, cutoffs, scratch);
      var e1 := Without(rest, ephemeral);
      var e2 := Without(e1, tool);
      ExactlyOneClass(last, Ephemeral, scratch);
      ExactlyOneClass(last, Tool, scratch);
      ExactlyOneClass(last, Session, scratch);
      assert (e1 + [last])[..|e1|] == e1;
      assert (e2 + [last])[..|e2|] == e2;
    }
  }

  class Store {
    const events: Table<Event>
    const metrics: Table<Series>
    const spans: Table<Series>

    constructor (events: seq<Event>, metrics: seq<Series>, spans: seq<Series>)
      ensures fresh(this.events) && fresh(this.metrics) && fresh(this.spans)
      ensures this.metrics != this.spans
      ensures this.events.rows == events && this.metrics.rows == metrics && this.spans.rows == spans
    {
      this.events := new Table(events);
      this.metrics := new Table(metrics);
      this.spans := new Table(spans);
    }

    /** `prune_agent_events`: class by class, each row by the window of its own class. */
    method PruneAll(cutoffs: Cutoffs, scratch: set<string>) returns (deleted: nat)
      requires metrics != spans
      modifies events, metrics, spans
      ensures events.rows == Without(old(events.rows), PastWindow(cutoffs, scratch))
      ensures metrics.rows == Without(old(metrics.rows), Stale(cutoffs(Otlp)))
      ensures spans.rows == Without(old(spans.rows), Stale(cutoffs(OtlpSpans)))
      ensures deleted == Matching(old(events.rows), PastWindow(cutoffs, scratch))
                       + Matching(old(metrics.rows), Stale(cutoffs(Otlp))) + Matching(old(spans.rows), Stale(cutoffs(OtlpSpans)))
    {
      ThreePrunesAreOne(events.rows, cutoffs, scratch);
      var ephemeral, _ := events.Prune(Expired(Ephemeral, cutoffs, scratch));
      var tool, _ := events.Prune(Expired(Tool, cutoffs, scratch));
      var session, _ := events.Prune(Expired(Session, cutoffs, scratch));
      var otlp, _ := metrics.Prune(Stale(cutoffs(Otlp)));
      var otlpSpans, _ := spans.Prune(Stale(cutoffs(OtlpSpans)));
      deleted := ephemeral + tool + session + otlp + otlpSpans;
    }

    /** With the same cutoffs the second prune deletes nothing. */
    method PruneTwice(cutoffs: Cutoffs, scratch: set<string>) returns (first: nat, second: nat)
      requires metrics != spans
      modifies events, metrics, spans
      ensures second == 0
      ensures first == |old(events.rows)| - |events.rows| + |old(metrics.rows)| - |metrics.rows| + |old(spans.rows)| - |spans.rows|
    {
      NothingMatching(events.rows, PastWindow(cutoffs, scratch));
      NothingMatching(metrics.rows, Stale(cutoffs(Otlp)));
      NothingMatching(spans.rows, Stale(cutoffs(OtlpSpans)));
      WithoutTwice(events.rows, PastWindow(cutoffs, scratch));
      WithoutTwice(metrics.rows, Stale(cutoffs(Otlp)));
      WithoutTwice(spans.rows, Stale(cutoffs(OtlpSpans)));
      first := PruneAll(cutoffs, scratch);
      second := PruneAll(cutoffs, scratch);
    }
  }

  // The windows.

  const MIN_RETENTION_DAYS := 1
  const MAX_RETENTION_DAYS := 365

  function DefaultDays(c: Class): int {
    match c case Ephemeral => 7 case Tool => 30 case _ => 90
  }

  function Clamp(days: int): int {
    if days < MIN_RETENTION_DAYS then MIN_RETENTION_DAYS else if days > MAX_RETENTION_DAYS then MAX_RETENTION_DAYS else days
  }

  /** What `int(json.loads(...))` makes of a stored value. An infinite number (`Infinity`, `1e999`) raises `OverflowError`, which
      is not among the exceptions that mean unreadable. */
  datatype Stored = Days(n: int) | Unreadable | Infinite

  /** A stored setting under one of the five known keys. */
  datatype Setting = Setting(target: Class, stored: Stored)

  function WindowOf(settings: seq<Setting>, c: Class): int {
    if settings == [] then DefaultDays(c)
    else
      var last := settings[|settings| - 1];
      if last.target == c && last.stored.Days? then Clamp(last.stored.n) else WindowOf(settings[..|settings| - 1], c)
  }

  /** `resolve_retention_days`. It crashes exactly when some stored window is infinite. */
  method ResolveRetentionDays(settings: seq<Setting>) returns (raised: bool, effective: map<Class, int>)
    ensures raised <==> exists s | s in settings :: s.stored.Infinite?
    ensures !raised ==> effective.Keys == {Ephemeral, Tool, Session, Otlp, OtlpSpans}
    ensures !raised ==> forall c :: c in effective && effective[c] == WindowOf(settings, c)
  {
    raised := false;
    effective := map[Ephemeral := DefaultDays(Ephemeral), Tool := DefaultDays(Tool), Session := DefaultDays(Session),
                     Otlp := DefaultDays(Otlp), OtlpSpans := DefaultDays(OtlpSpans)];
    forall c
      ensures c in effective && effective[c] == DefaultDays(c)
    {
      match c case Ephemeral => case Tool => case Session => case Otlp => case OtlpSpans =>
    }
    for i := 0 to |settings|
      invariant !raised && forall s | s in settings[..i] :: !s.stored.Infinite?
      invariant effective.Keys == {Ephemeral, Tool, Session, Otlp, OtlpSpans}
      invariant forall c :: c in effective && effective[c] == WindowOf(settings[..i], c)
    {
      assert settings[..i + 1][..i] == settings[..i];
      match settings[i].stored {
        case Unreadable =>
        case Infinite => return true, effective;
        case Days(n) =>
          var stored := n;
          if !(MIN_RETENTION_DAYS <= stored <= MAX_RETENTION_DAYS) {
            stored := Clamp(stored);
          }
          effective := effective[settings[i].target := stored];
      }
    }
    assert settings[..|settings|] == settings;
  }

  /** When it does not crash, no window is empty, negative or longer than a year, and settings that are all unreadable mean the
      default: `ResolveRetentionDays` returns these windows. */
  lemma {:induction false} WindowsAreSane(settings: seq<Setting>, c: Class)
    ensures MIN_RETENTION_DAYS <= WindowOf(settings, c) <= MAX_RETENTION_DAYS
    ensures (forall s | s in settings && s.target == c :: !s.stored.Days?) ==> WindowOf(settings, c) == DefaultDays(c)
    ensures || (exists s :: s in settings && s.target == c && s.stored == Days(WindowOf(settings, c)))
            || WindowOf(settings, c) in {DefaultDays(c), MIN_RETENTION_DAYS, MAX_RETENTION_DAYS}
  {
    if settings != [] {
      var rest, last := settings[..|settings| - 1], settings[|settings| - 1];
      assert settings == rest + [last];
      WindowsAreSane(rest, c);
      if last.target == c && last.stored.Days? {
        assert last in settings;
      } else if s :| s in rest && s.target == c && s.stored == Days(WindowOf(rest, c)) {
        assert s in settings;
      }
    }
  }

  /** A window within bounds is used as stored, one beyond them as the bound it passed. */
  lemma {:induction false} StoredWindowIsUsed(settings: seq<Setting>, c: Class, n: int)
    requires settings != [] && settings[|settings| - 1] == Setting(c, Days(n))
    ensures 1 <= n <= 365 ==> WindowOf(settings, c) == n
    ensures n > 365 ==> WindowOf(settings, c) == 365
    ensures n < 1 ==> WindowOf(settings, c) == 1
  {
  }

  /** Without a setting: a week for scratch sessions, a month for tool calls, a quarter for the rest. */
  lemma {:induction false} DefaultsGrow(c: Class)
    ensures WindowOf([], c) == if c == Ephemeral then 7 else if c == Tool then 30 else 90
  {
  }

  /** A tool call ages as one unless its session is scratch; what anchors a session ages with the session. */
  lemma {:induction false} ClassesAre(e: Event, scratch: set<string>)
    ensures e.session in scratch ==> ClassOf(e, scratch) == Ephemeral
    ensures e.session !in scratch ==>
              && (e.kind in {"PreToolUse", "PostToolUse", "PermissionRequest", "PermissionDenied", "PostToolUseFailure"} ==>
                    ClassOf(e, scratch) == Tool)
              && (e.kind in {"SessionStart", "UserPromptSubmit", "Stop", "SessionEnd"} ==> ClassOf(e, scratch) == Session)
  {
    if e.kind in {"SessionStart", "UserPromptSubmit", "Stop", "SessionEnd"} {
      AnchorsAreNoToolEvents(e.kind);
    }
  }

  lemma {:induction false} AnchorsAreNoToolEvents(kind: string)
    requires kind in {"SessionStart", "UserPromptSubmit", "Stop", "SessionEnd"}
    ensures kind !in TOOL_EVENTS
  {
    assert kind[0] == 'S' || kind[0] == 'U';
  }

  lemma {:induction false} WithoutKeeps<R>(rows: seq<R>, expired: R -> bool, r: R)
    ensures r in Without(rows, expired) <==> r in rows && !expired(r)
  {
    if rows != [] {
      var rest, last := rows[..|rows| - 1], rows[|rows| - 1];
      WithoutKeeps(rest, expired, r);
      assert rows == rest + [last];
    }
  }

  /** A prune keeps exactly the events not older than their own class's cutoff, in either spelling of their time. */
  lemma {:induction false} PruneKeepsIff(events: seq<Event>, cutoffs: Cutoffs, scratch: set<string>, e: Event)
    ensures e in Without(events, PastWindow(cutoffs, scratch)) <==>
            e in events && AtLeast(Spaced(e.at), cutoffs(ClassOf(e, scratch)))
  {
    WithoutKeeps(events, PastWindow(cutoffs, scratch), e);
  }

  /** A series is kept exactly when the last export that touched it is not older than the cutoff. */
  lemma {:induction false} SeriesKeptIff(rows: seq<Series>, cutoff: string, s: Series)
    ensures s in Without(rows, Stale(cutoff)) <==> s in rows && AtLeast(Spaced(s.lastSeen), cutoff)
  {
    WithoutKeeps(rows, Stale(cutoff), s);
  }
}
