/** The attention queue: rows of `attention_items`, and the statements that change them. */
module AttentionQueue {
  import opened Text

  datatype Kind =
    | SessionStalled | ScheduleFailed | BudgetThreshold | TaskBlocked | InboxBacklog | NotificationUnread | NotificationBacklog
    | PermissionRequest | Elicitation | Notification

  /** Computed by a producer and closed by the sweep; the other three are written from the hook handler. */
  predicate IsDerived(kind: Kind) {
    !kind.PermissionRequest? && !kind.Elicitation? && !kind.Notification?
  }

  const DERIVED_KINDS := [SessionStalled, ScheduleFailed, BudgetThreshold, TaskBlocked, InboxBacklog, NotificationUnread, NotificationBacklog]

  datatype Severity = Blocking | Stalled | Queued

  datatype RowState = Open | Muted | Resolved

  datatype Resolution = ConditionCleared | Expired | Answered | Dismissed

  /** Moments are seconds from some midnight: every column is compared in one spelling. */
  type Moment = int

  /** What a row is about; written once, when the row is minted. */
  datatype Subject = Subject(session: Option<string>, project: Option<int>, task: Option<int>, schedule: Option<int>,
                             payload: Option<string>, hookEvent: Option<string>, requiresResponse: bool)

  datatype Candidate = Candidate(kind: Kind, key: string, severity: Severity, title: string, detail: Option<string>,
                                 subject: Subject, expiresAt: Option<Moment>)

  datatype Item = Item(kind: Kind, key: string, severity: Severity, state: RowState, seenCount: nat,
                       title: string, detail: Option<string>, subject: Subject,
                       firstSeen: Moment, lastSeen: Moment, expiresAt: Option<Moment>, mutedUntil: Option<Moment>,
                       resolvedAt: Option<Moment>, resolution: Option<Resolution>,
                       response: Option<string>, respondedAt: Option<Moment>)
  {
    predicate Live() {
      state != Resolved
    }
  }

  predicate Due(bound: Option<Moment>, t: Moment) {
    bound.Some? && bound.value <= t
  }

  // Each statement's effect on one row.

  function Unmuted(r: Item, t: Moment): Item {
    if r.state == Muted && Due(r.mutedUntil, t) then r.(state := Open, mutedUntil := None) else r
  }

  function Aged(r: Item, t: Moment): Item {
    if r.Live() && Due(r.expiresAt, t) then r.(state := Resolved, resolvedAt := Some(t), resolution := Some(Expired)) else r
  }

  function Bumped(r: Item, c: Candidate, t: Moment): Item {
    r.(seenCount := r.seenCount + 1, lastSeen := t, severity := c.severity, title := c.title, detail := c.detail, expiresAt := c.expiresAt)
  }

  function Minted(c: Candidate, t: Moment): Item {
    Item(c.kind, c.key, c.severity, Open, 1, c.title, c.detail, c.subject, t, t, c.expiresAt, None, None, None, None, None)
  }

  function Swept(r: Item, kind: Kind, keys: set<string>, t: Moment): Item {
    if r.Live() && r.kind == kind && r.key !in keys
    then r.(state := Resolved, resolvedAt := Some(t), resolution := Some(ConditionCleared)) else r
  }

  // The statements, on the whole table. A row's id is its index.

  function UnmuteExpired(rows: seq<Item>, t: Moment): seq<Item> {
    seq(|rows|, i requires 0 <= i < |rows| => Unmuted(rows[i], t))
  }

  function ResolveExpired(rows: seq<Item>, t: Moment): seq<Item> {
    seq(|rows|, i requires 0 <= i < |rows| => Aged(rows[i], t))
  }

  function SweepCleared(rows: seq<Item>, kind: Kind, keys: set<string>, t: Moment): seq<Item> {
    seq(|rows|, i requires 0 <= i < |rows| => Swept(rows[i], kind, keys, t))
  }

  /** The row the partial unique index finds for a key. */
  function LiveIndex(rows: seq<Item>, key: string): (found: Option<nat>)
    ensures found.Some? ==> found.value < |rows| && rows[found.value].Live() && rows[found.value].key == key
    ensures found.None? ==> forall i | 0 <= i < |rows| :: !(rows[i].Live() && rows[i].key == key)
  {
    if rows == [] then None
    else
      var last := |rows| - 1;
      if rows[last].Live() && rows[last].key == key then Some(last) else LiveIndex(rows[..last], key)
  }

  function Upsert(rows: seq<Item>, c: Candidate, t: Moment): seq<Item> {
    match LiveIndex(rows, c.key)
    case Some(i) => rows[i := Bumped(rows[i], c, t)]
    case None => rows + [Minted(c, t)]
  }

  function UpsertAll(rows: seq<Item>, cs: seq<Candidate>, t: Moment): seq<Item> {
    if cs == [] then rows else Upsert(UpsertAll(rows, cs[..|cs| - 1], t), cs[|cs| - 1], t)
  }

  /** The keys a pass produced for one kind. */
  function KeysOf(cs: seq<Candidate>, kind: Kind): set<string> {
    set c | c in cs && c.kind == kind :: c.key
  }

  /** The keys noted under each derived kind are exactly the ones these candidates carry. */
  ghost predicate Notes(produced: map<Kind, set<string>>, cs: seq<Candidate>) {
    forall kind | kind in DERIVED_KINDS :: kind in produced && produced[kind] == KeysOf(cs, kind)
  }

  function SweepAll(rows: seq<Item>, kinds: seq<Kind>, cs: seq<Candidate>, t: Moment): seq<Item> {
    if kinds == [] then rows
    else
      var kind := kinds[|kinds| - 1];
      SweepCleared(SweepAll(rows, kinds[..|kinds| - 1], cs, t), kind, KeysOf(cs, kind), t)
  }

  function Before(rows: seq<Item>, t: Moment): seq<Item> {
    ResolveExpired(UnmuteExpired(rows, t), t)
  }

  /** `refresh`. */
  function Refresh(rows: seq<Item>, cs: seq<Candidate>, t: Moment): seq<Item> {
    SweepAll(UpsertAll(Before(rows, t), cs, t), DERIVED_KINDS, cs, t)
  }

  /** `respond`: only a live row can be answered. */
  function Respond(rows: seq<Item>, id: nat, resolution: Resolution, response: Option<string>, t: Moment): seq<Item> {
    if id < |rows| && rows[id].Live()
    then rows[id := rows[id].(state := Resolved, resolvedAt := Some(t), resolution := Some(resolution),
                              response := response, respondedAt := Some(t))]
    else rows
  }

  function Count(rows: seq<Item>, p: Item -> bool): nat {
    if rows == [] then 0 else Count(rows[..|rows| - 1], p) + if p(rows[|rows| - 1]) then 1 else 0
  }

  function LiveCount(rows: seq<Item>): nat {
    Count(rows, (r: Item) => r.Live())
  }

  function Concat(producers: seq<seq<Candidate>>): seq<Candidate> {
    if producers == [] then [] else Concat(producers[..|producers| - 1]) + producers[|producers| - 1]
  }

  datatype Answer = UnknownResolution | NoSuchItem | Closed(row: Item)

  datatype Totals = Totals(blocking: nat, stalled: nat, queued: nat, open: nat, muted: nat,
                           resolvedToday: nat, averageSeconds: Option<int>)

  const DAY := 24 * 60 * 60

  /** Resolved since the last midnight before this moment. */
  predicate ResolvedSince(r: Item, midnight: Moment) {
    r.state == Resolved && r.resolvedAt.Some? && r.resolvedAt.value >= midnight
  }

  /** How long the rows resolved since midnight had been open, added up. */
  function SecondsSince(rows: seq<Item>, midnight: Moment): int {
    if rows == [] then 0
    else
      var last := rows[|rows| - 1];
      SecondsSince(rows[..|rows| - 1], midnight)
      + if ResolvedSince(last, midnight) then last.resolvedAt.value - last.firstSeen else 0
  }

  /** `int(sum / n)`: towards zero. */
  ghost predicate IsTruncatedMean(mean: int, sum: int, n: nat) {
    if sum >= 0 then mean * n <= sum < (mean + 1) * n else (mean - 1) * n < sum <= mean * n
  }

  function TruncatedMean(sum: int, n: nat): (mean: int)
    requires n > 0
    ensures IsTruncatedMean(mean, sum, n)
  {
    if sum >= 0 then sum / n else -((-sum) / n)
  }

  class Queue {
    var items: seq<Item>

    constructor (items: seq<Item>)
      ensures this.items == items
    {
      this.items := items;
    }

    /** `refresh`, given what each producer answered at this moment. */
    method RefreshAll(producers: seq<seq<Candidate>>, t: Moment) returns (autoResolved: int, expired: int)
      requires forall p | p in producers :: forall c | c in p :: IsDerived(c.kind)
      modifies this
      ensures items == Refresh(old(items), Concat(producers), t)
      ensures expired == LiveCount(old(items)) - LiveCount(Before(old(items), t))
      ensures autoResolved == LiveCount(UpsertAll(Before(old(items), t), Concat(producers), t)) - LiveCount(items)
    {
      UnmuteKeepsLive(items, t);
      items := UnmuteExpired(items, t);
      var live := LiveCount(items);
      items := ResolveExpired(items, t);
      expired := live - LiveCount(items);
      var produced := Produce(producers, t);
      autoResolved := Sweep(produced, Concat(producers), t);
    }

    /** The producers' loop: every candidate upserted, every key noted under its kind. */
    method Produce(producers: seq<seq<Candidate>>, t: Moment) returns (produced: map<Kind, set<string>>)
      requires forall p | p in producers :: forall c | c in p :: IsDerived(c.kind)
      modifies this
      ensures items == UpsertAll(old(items), Concat(producers), t)
      ensures Notes(produced, Concat(producers))
    {
      produced := map kind | kind in DERIVED_KINDS :: {};
      assert forall kind :: KeysOf([], kind) == {};
      var i := 0;
      while i < |producers|
        invariant 0 <= i <= |producers|
        invariant items == UpsertAll(old(items), Concat(producers[..i]), t)
        invariant Notes(produced, Concat(producers[..i]))
      {
        assert producers[i] in producers;
        produced := ProduceOne(producers[i], produced, Concat(producers[..i]), old(items), t);
        assert producers[..i + 1][..i] == producers[..i];
        i := i + 1;
      }
      assert producers[..i] == producers;
    }

    method ProduceOne(cs: seq<Candidate>, before: map<Kind, set<string>>, ghost done: seq<Candidate>,
            ghost start: seq<Item>, t: Moment)
      returns (produced: map<Kind, set<string>>)
      requires forall c | c in cs :: IsDerived(c.kind)
      requires items == UpsertAll(start, done, t)
      requires Notes(before, done)
      modifies this
      ensures items == UpsertAll(start, done + cs, t)
      ensures Notes(produced, done + cs)
    {
      produced := before;
      ghost var all, n := done + cs, |done|;
      assert all[..n] == done;
      var j := 0;
      while j < |cs|
        invariant 0 <= j <= |cs|
        invariant items == UpsertAll(start, all[..n + j], t) && Notes(produced, all[..n + j])
      {
        var c := cs[j];
        DerivedIsListed(c.kind);
        OneMore(start, all, n + j, t, produced);
        items := Upsert(items, c, t);
        produced := produced[c.kind := produced[c.kind] + {c.key}];
        j := j + 1;
      }
      assert all[..n + j] == all;
    }

    method Sweep(produced: map<Kind, set<string>>, ghost cs: seq<Candidate>, t: Moment) returns (autoResolved: int)
      requires Notes(produced, cs)
      modifies this
      ensures items == SweepAll(old(items), DERIVED_KINDS, cs, t)
      ensures autoResolved == LiveCount(old(items)) - LiveCount(items)
    {
      autoResolved := 0;
      var i := 0;
      while i < |DERIVED_KINDS|
        invariant 0 <= i <= |DERIVED_KINDS|
        invariant items == SweepAll(old(items), DERIVED_KINDS[..i], cs, t)
        invariant autoResolved == LiveCount(old(items)) - LiveCount(items)
      {
        var kind := DERIVED_KINDS[i];
        var live := LiveCount(items);
        items := SweepCleared(items, kind, produced[kind], t);
        autoResolved := autoResolved + (live - LiveCount(items));
        assert DERIVED_KINDS[..i + 1][..i] == DERIVED_KINDS[..i];
        i := i + 1;
      }
      assert DERIVED_KINDS[..i] == DERIVED_KINDS;
    }

    /** `respond`; a resolution no human can give is an error, a row already resolved, or absent, is refused. */
    method Answer(id: nat, resolution: Resolution, response: Option<string>, t: Moment) returns (answer: Answer)
      modifies this
      ensures resolution != Answered && resolution != Dismissed ==> answer == UnknownResolution && items == old(items)
      ensures resolution == Answered || resolution == Dismissed ==>
                && items == Respond(old(items), id, resolution, response, t)
                && answer == if id < |old(items)| && old(items)[id].Live() then Closed(items[id]) else NoSuchItem
    {
      if resolution != Answered && resolution != Dismissed {
        answer := UnknownResolution;
      } else if id < |items| && items[id].Live() {
        items := Respond(items, id, resolution, response, t);
        answer := Closed(items[id]);
      } else {
        answer := NoSuchItem;
      }
    }

    /** `counts`: grouped by severity; `open` is the sum the badge shows; what was resolved since midnight, and how long it took. */
    method Counts(t: Moment) returns (totals: Totals)
      ensures totals.open == Count(items, (r: Item) => r.state == Open)
      ensures totals.open == totals.blocking + totals.stalled + totals.queued
      ensures totals.blocking == Count(items, (r: Item) => r.state == Open && r.severity == Blocking)
      ensures totals.stalled == Count(items, (r: Item) => r.state == Open && r.severity == Stalled)
      ensures totals.queued == Count(items, (r: Item) => r.state == Open && r.severity == Queued)
      ensures totals.muted == Count(items, (r: Item) => r.state == Muted)
      ensures totals.resolvedToday == Count(items, (r: Item) => ResolvedSince(r, t - t % DAY))
      ensures totals.averageSeconds.None? <==> totals.resolvedToday == 0
      ensures totals.averageSeconds.Some? ==>
                IsTruncatedMean(totals.averageSeconds.value, SecondsSince(items, t - t % DAY), totals.resolvedToday)
    {
      var blocking := Count(items, (r: Item) => r.state == Open && r.severity == Blocking);
      var stalled := Count(items, (r: Item) => r.state == Open && r.severity == Stalled);
      var queued := Count(items, (r: Item) => r.state == Open && r.severity == Queued);
      OpenSplitsBySeverity(items);
      var muted := Count(items, (r: Item) => r.state == Muted);
      var resolved := Count(items, (r: Item) => ResolvedSince(r, t - t % DAY));
      var average := None;
      if resolved > 0 {
        average := Some(TruncatedMean(SecondsSince(items, t - t % DAY), resolved));
      }
      totals := Totals(blocking, stalled, queued, blocking + stalled + queued, muted, resolved, average);
    }
  }

  /** The next candidate's effect on the table and on the notes. */
  lemma {:induction false} OneMore(rows: seq<Item>, cs: seq<Candidate>, k: nat, t: Moment, produced: map<Kind, set<string>>)
    requires k < |cs| && cs[k].kind in DERIVED_KINDS && Notes(produced, cs[..k])
    ensures UpsertAll(rows, cs[..k + 1], t) == Upsert(UpsertAll(rows, cs[..k], t), cs[k], t)
    ensures Notes(produced[cs[k].kind := produced[cs[k].kind] + {cs[k].key}], cs[..k + 1])
  {
    assert cs[..k + 1] == cs[..k] + [cs[k]];
    assert cs[..k + 1][..k] == cs[..k];
    forall kind | kind in DERIVED_KINDS
      ensures KeysOf(cs[..k + 1], kind) == KeysOf(cs[..k], kind) + if kind == cs[k].kind then {cs[k].key} else {}
    {
    }
  }

  lemma {:induction false} DerivedIsListed(kind: Kind)
    requires IsDerived(kind)
    ensures kind in DERIVED_KINDS
  {
  }

  lemma {:induction false} UnmuteKeepsLive(rows: seq<Item>, t: Moment)
    ensures LiveCount(UnmuteExpired(rows, t)) == LiveCount(rows)
  {
    if rows != [] {
      var front := rows[..|rows| - 1];
      UnmuteKeepsLive(front, t);
      assert UnmuteExpired(rows, t)[..|rows| - 1] == UnmuteExpired(front, t);
    }
  }

  /** The three severities account for every open row. */
  lemma {:induction false} OpenSplitsBySeverity(rows: seq<Item>)
    ensures Count(rows, (r: Item) => r.state == Open)
         == Count(rows, (r: Item) => r.state == Open && r.severity == Blocking)
          + Count(rows, (r: Item) => r.state == Open && r.severity == Stalled)
          + Count(rows, (r: Item) => r.state == Open && r.severity == Queued)
  {
    if rows != [] {
      OpenSplitsBySeverity(rows[..|rows| - 1]);
    }
  }
}
