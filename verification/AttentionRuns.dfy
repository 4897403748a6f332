/** Whole runs of the attention queue: refreshes, hook items and answers in any order. */
module AttentionRuns {
  import opened Text
  import opened AttentionQueue
  import opened AttentionLaws
  import opened AttentionKeys

  datatype Event =
    | Refreshed(cs: seq<Candidate>, t: Moment)
    | Hooked(c: Candidate, t: Moment)
    | Responded(id: nat, resolution: Resolution, response: Option<string>, t: Moment)

  function Step(rows: seq<Item>, e: Event): seq<Item> {
    match e
    case Refreshed(cs, t) => Refresh(rows, cs, t)
    case Hooked(c, t) => Upsert(rows, c, t)
    case Responded(id, resolution, response, t) => Respond(rows, id, resolution, response, t)
  }

  /** The table after the first `n` events. */
  function Run(rows: seq<Item>, events: seq<Event>, n: nat): seq<Item>
    requires n <= |events|
  {
    if n == 0 then rows else Step(Run(rows, events, n - 1), events[n - 1])
  }

  /** What the writers supply: refreshes derived kinds only, hooks the other three, every key spelled for its kind. */
  ghost predicate IsWellKeyed(e: Event, kindOf: string -> Kind) {
    match e
    case Refreshed(cs, _) => KeyedCandidates(cs, kindOf) && IsDerivedPass(cs)
    case Hooked(c, _) => kindOf(c.key) == c.kind && !IsDerived(c.kind)
    case Responded(_, _, _, _) => true
  }

  ghost predicate WellKeyed(events: seq<Event>, kindOf: string -> Kind) {
    forall i | 0 <= i < |events| :: IsWellKeyed(events[i], kindOf)
  }

  lemma {:induction false} StepKeeps(rows: seq<Item>, e: Event, kindOf: string -> Kind)
    requires UniqueLive(rows) && Keyed(rows, kindOf) && IsWellKeyed(e, kindOf)
    ensures UniqueLive(Step(rows, e)) && Keyed(Step(rows, e), kindOf) && Evolves(rows, Step(rows, e))
  {
    match e
    case Refreshed(cs, t) => RefreshKeeps(rows, cs, t, kindOf);
    case Hooked(c, t) => UpsertKeeps(rows, c, t, kindOf);
    case Responded(id, resolution, response, t) => RespondKeeps(rows, id, resolution, response, t, kindOf);
  }

  /** At every moment of every run: one live row per key, keys that tell their kind, and rows that only ever move forward
      from any earlier moment — resolved rows frozen, first sightings fixed. */
  lemma {:induction false} RunKeeps(rows: seq<Item>, events: seq<Event>, m: nat, n: nat, kindOf: string -> Kind)
    requires UniqueLive(rows) && Keyed(rows, kindOf) && WellKeyed(events, kindOf) && m <= n <= |events|
    ensures UniqueLive(Run(rows, events, n)) && Keyed(Run(rows, events, n), kindOf)
    ensures Evolves(Run(rows, events, m), Run(rows, events, n))
    decreases n
  {
    if n > 0 {
      RunKeeps(rows, events, if m < n then m else n - 1, n - 1, kindOf);
      StepKeeps(Run(rows, events, n - 1), events[n - 1], kindOf);
      if m < n {
        EvolvesTransitive(Run(rows, events, m), Run(rows, events, n - 1), Run(rows, events, n));
      }
    }
  }

  /** What one event adds to the count of a derived row that is live after it. */
  function Seen(e: Event, key: string): nat {
    if e.Refreshed? then Occurrences(e.cs, key) else 0
  }

  /** How often the refreshes among events `m` up to `n` produced a key. */
  function Sightings(events: seq<Event>, m: nat, n: nat, key: string): nat
    requires m <= n <= |events|
  {
    if m == n then 0
    else Sightings(events, m, n - 1, key) + Seen(events[n - 1], key)
  }

  function Refreshes(events: seq<Event>, m: nat, n: nat): nat
    requires m <= n <= |events|
  {
    if m == n then 0 else Refreshes(events, m, n - 1) + if events[n - 1].Refreshed? then 1 else 0
  }

  /** A recurrence mints a fresh row, seen as often as the pass that minted it produced its key; a live row is seen again by each pass. */
  lemma {:induction false} RefreshCounts(rows: seq<Item>, cs: seq<Candidate>, t: Moment, kindOf: string -> Kind, i: nat)
    requires UniqueLive(rows) && Keyed(rows, kindOf) && KeyedCandidates(cs, kindOf) && IsDerivedPass(cs)
    requires i < |Refresh(rows, cs, t)| && Refresh(rows, cs, t)[i].Live()
    ensures var r := Refresh(rows, cs, t)[i];
      r.seenCount == (if i < |rows| then rows[i].seenCount else 0) + Occurrences(cs, r.key)
    ensures i >= |rows| ==> Refresh(rows, cs, t)[i].state == Open && Refresh(rows, cs, t)[i].firstSeen == t
    ensures IsDerived(Refresh(rows, cs, t)[i].kind) ==> Occurrences(cs, Refresh(rows, cs, t)[i].key) > 0
  {
    var before := Before(rows, t);
    var upserted, r := UpsertAll(before, cs, t), Refresh(rows, cs, t)[i];
    BeforeKeeps(rows, t, kindOf);
    UpsertAllOldRows(before, cs, t);
    UpsertAllNewRows(before, cs, t);
    RefreshIs(rows, cs, t);
    if i < |rows| {
      BumpedAllFacts(before[i], cs, t);
    }
    if IsDerived(r.kind) {
      RefreshIsExact(rows, cs, t, kindOf, r.kind);
      assert r.key in LiveKeys(Refresh(rows, cs, t), r.kind);
      OccursIff(cs, r.key);
    }
  }

  /** Row `i`, live and derived after this event, was seen as often more as the event produced its key. */
  ghost predicate Counts(rows: seq<Item>, e: Event, rows': seq<Item>, i: nat)
    requires i < |rows'|
  {
    var r := rows'[i];
    && r.seenCount == (if i < |rows| then rows[i].seenCount else 0) + Seen(e, r.key)
    && (e.Refreshed? ==> Seen(e, r.key) > 0)
    && (i < |rows| ==> rows[i].Live() && rows[i].kind == r.kind && rows[i].key == r.key)
    && (i >= |rows| ==> e.Refreshed?)
  }

  lemma {:induction false} StepCounts(rows: seq<Item>, e: Event, kindOf: string -> Kind, i: nat)
    requires UniqueLive(rows) && Keyed(rows, kindOf) && IsWellKeyed(e, kindOf)
    requires i < |Step(rows, e)| && Step(rows, e)[i].Live() && IsDerived(Step(rows, e)[i].kind)
    ensures Counts(rows, e, Step(rows, e), i)
  {
    StepKeeps(rows, e, kindOf);
    if i < |rows| {
      assert Follows(rows[i], Step(rows, e)[i]);
    }
    if e.Refreshed? {
      RefreshCounts(rows, e.cs, e.t, kindOf, i);
    } else if e.Hooked? && i < |rows| && LiveIndex(rows, e.c.key) == Some(i) {
      assert kindOf(rows[i].key) == rows[i].kind;
    }
  }

  lemma {:induction false} RunGrows(rows: seq<Item>, events: seq<Event>, m: nat, n: nat, kindOf: string -> Kind)
    requires UniqueLive(rows) && Keyed(rows, kindOf) && WellKeyed(events, kindOf) && m <= n <= |events|
    ensures |Run(rows, events, m)| <= |Run(rows, events, n)|
  {
    RunKeeps(rows, events, m, n, kindOf);
  }

  lemma {:induction false} RunStays(rows: seq<Item>, events: seq<Event>, n: nat, kindOf: string -> Kind)
    requires UniqueLive(rows) && Keyed(rows, kindOf) && WellKeyed(events, kindOf) && n <= |events|
    ensures UniqueLive(Run(rows, events, n)) && Keyed(Run(rows, events, n), kindOf)
  {
    RunKeeps(rows, events, n, n, kindOf);
  }

  lemma {:induction false} RunCounts(rows: seq<Item>, events: seq<Event>, n: nat, kindOf: string -> Kind, i: nat)
    requires UniqueLive(rows) && Keyed(rows, kindOf) && WellKeyed(events, kindOf) && 0 < n <= |events|
    requires i < |Run(rows, events, n)| && Run(rows, events, n)[i].Live() && IsDerived(Run(rows, events, n)[i].kind)
    ensures Counts(Run(rows, events, n - 1), events[n - 1], Run(rows, events, n), i)
  {
    var before := Run(rows, events, n - 1);
    RunStays(rows, events, n - 1, kindOf);
    assert Run(rows, events, n) == Step(before, events[n - 1]);
    StepCounts(before, events[n - 1], kindOf, i);
  }

  ghost predicate OncePerKey(events: seq<Event>) {
    forall k, key | 0 <= k < |events| && events[k].Refreshed? :: Occurrences(events[k].cs, key) <= 1
  }

  /** Tables that only grow, on which each event counts as it must for row `i`. */
  ghost predicate Steady(tables: nat -> seq<Item>, events: seq<Event>, i: nat) {
    && (forall k, l | 0 <= k <= l <= |events| :: |tables(k)| <= |tables(l)|)
    && forall k | 0 <= k < |events| && i < |tables(k + 1)| && tables(k + 1)[i].Live() && IsDerived(tables(k + 1)[i].kind) ::
         Counts(tables(k), events[k], tables(k + 1), i)
  }

  lemma {:induction false} SightingsAlong(tables: nat -> seq<Item>, events: seq<Event>, m: nat, n: nat, i: nat)
    requires Steady(tables, events, i) && m < n <= |events|
    requires |tables(m)| <= i < |tables(m + 1)| && i < |tables(n)| && tables(n)[i].Live() && IsDerived(tables(n)[i].kind)
    ensures tables(n)[i].seenCount == Sightings(events, m, n, tables(n)[i].key)
    ensures OncePerKey(events) ==> tables(n)[i].seenCount == Refreshes(events, m, n)
    decreases n
  {
    assert Counts(tables(n - 1), events[n - 1], tables(n), i);
    if m < n - 1 {
      assert |tables(m + 1)| <= |tables(n - 1)|;
      SightingsAlong(tables, events, m, n - 1, i);
    }
  }

  function TablesOf(rows: seq<Item>, events: seq<Event>): nat -> seq<Item> {
    (k: nat) => if k <= |events| then Run(rows, events, k) else []
  }

  lemma {:induction false} RunIsSteady(rows: seq<Item>, events: seq<Event>, kindOf: string -> Kind, i: nat)
    requires UniqueLive(rows) && Keyed(rows, kindOf) && WellKeyed(events, kindOf)
    ensures Steady(TablesOf(rows, events), events, i)
  {
    var tables := TablesOf(rows, events);
    forall k, l | 0 <= k <= l <= |events|
      ensures |tables(k)| <= |tables(l)|
    {
      RunGrows(rows, events, k, l, kindOf);
    }
    forall k | 0 <= k < |events| && i < |tables(k + 1)| && tables(k + 1)[i].Live() && IsDerived(tables(k + 1)[i].kind)
      ensures Counts(tables(k), events[k], tables(k + 1), i)
    {
      RunCounts(rows, events, k + 1, kindOf, i);
    }
  }

  /** A live derived row minted by event `m` has been seen once for each time a refresh since then produced its key. */
  lemma {:induction false} SeenCountIsSightings(rows: seq<Item>, events: seq<Event>, m: nat, n: nat,
          kindOf: string -> Kind, i: nat)
    requires UniqueLive(rows) && Keyed(rows, kindOf) && WellKeyed(events, kindOf) && m < n <= |events|
    requires |Run(rows, events, m)| <= i < |Run(rows, events, m + 1)|
    requires i < |Run(rows, events, n)| && Run(rows, events, n)[i].Live() && IsDerived(Run(rows, events, n)[i].kind)
    ensures Run(rows, events, n)[i].seenCount == Sightings(events, m, n, Run(rows, events, n)[i].key)
  {
    RunIsSteady(rows, events, kindOf, i);
    SightingsAlong(TablesOf(rows, events), events, m, n, i);
  }

  lemma {:induction false} CountIsRefreshes(rows: seq<Item>, events: seq<Event>, m: nat, n: nat,
          kindOf: string -> Kind, i: nat)
    requires UniqueLive(rows) && Keyed(rows, kindOf) && WellKeyed(events, kindOf) && m < n <= |events|
    requires OncePerKey(events)
    requires |Run(rows, events, m)| <= i < |Run(rows, events, m + 1)|
    requires i < |Run(rows, events, n)| && Run(rows, events, n)[i].Live() && IsDerived(Run(rows, events, n)[i].kind)
    ensures Run(rows, events, n)[i].seenCount == Refreshes(events, m, n)
  {
    RunIsSteady(rows, events, kindOf, i);
    SightingsAlong(TablesOf(rows, events), events, m, n, i);
  }

  ghost predicate BuiltByHook(c: Candidate, t: Moment) {
    exists event, p, digest :: HookCandidate(event, p, digest, c.subject.project, c.title, c.detail, t) == Some(c)
  }

  /** What the writers do supply: the producers' answers, and the candidates hooks build. */
  ghost predicate IsSupplied(e: Event) {
    match e
    case Refreshed(cs, _) => Produced(cs)
    case Hooked(c, t) => BuiltByHook(c, t)
    case Responded(_, _, _, _) => true
  }

  lemma {:induction false} SuppliedIsWellKeyed(e: Event, key: string)
    requires IsSupplied(e)
    ensures IsWellKeyed(e, KindOf)
    ensures e.Refreshed? ==> Occurrences(e.cs, key) <= 1
  {
    match e
    case Refreshed(cs, _) => ProducedOncePerKey(cs, key);
    case Hooked(c, t) =>
      var event, p, digest :| HookCandidate(event, p, digest, c.subject.project, c.title, c.detail, t) == Some(c);
      HookCandidateIsWellKeyed(event, p, digest, c.subject.project, c.title, c.detail, t);
    case Responded(_, _, _, _) =>
  }

  ghost predicate IsSuppliedRun(events: seq<Event>) {
    forall k | 0 <= k < |events| :: IsSupplied(events[k])
  }

  lemma {:induction false} SuppliedRun(events: seq<Event>)
    requires IsSuppliedRun(events)
    ensures WellKeyed(events, KindOf) && OncePerKey(events)
  {
    forall k | 0 <= k < |events|
      ensures IsWellKeyed(events[k], KindOf)
    {
      SuppliedIsWellKeyed(events[k], "");
    }
    forall k, key | 0 <= k < |events| && events[k].Refreshed?
      ensures Occurrences(events[k].cs, key) <= 1
    {
      SuppliedIsWellKeyed(events[k], key);
    }
  }

  /** In any run of the real writers, a live derived row has been seen once per refresh since it was minted. */
  lemma {:induction false} SeenCountIsRefreshes(rows: seq<Item>, events: seq<Event>, m: nat, n: nat, i: nat)
    requires UniqueLive(rows) && Keyed(rows, KindOf) && m < n <= |events|
    requires IsSuppliedRun(events)
    requires |Run(rows, events, m)| <= i < |Run(rows, events, m + 1)|
    requires i < |Run(rows, events, n)| && Run(rows, events, n)[i].Live() && IsDerived(Run(rows, events, n)[i].kind)
    ensures Run(rows, events, n)[i].seenCount == Refreshes(events, m, n)
  {
    SuppliedRun(events);
    CountIsRefreshes(rows, events, m, n, KindOf, i);
  }
}
