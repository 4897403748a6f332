/** Planning the merge: our hook into the list a settings.json holds under one event. */
module HookMerge {
  import opened Json
  import opened HookAuthorship

  datatype Action = Ok | Repair | Add | Conflict

  /** What one pass over an event's entries counted. */
  datatype Tally = Tally(covered: bool, repaired: nat, narrow: nat, foreign: nat, malformed: nat) {
    function Plus(t: Tally): Tally {
      Tally(covered || t.covered, repaired + t.repaired, narrow + t.narrow, foreign + t.foreign, malformed + t.malformed)
    }

    function Action(): Action {
      if repaired > 0 then Repair else if !covered then Add else Ok
    }
  }

  const NOTHING := Tally(false, 0, 0, 0, 0)

  datatype EventPlan = EventPlan(event: string, action: Action, tally: Tally)

  /** An entry of the `{matcher, hooks[]}` shape. */
  predicate IsWrapper(entry: Json) {
    entry.Obj? && entry.dict.Get("hooks").Arr?
  }

  /** The `{matcher, hooks[]}` entry `build_hook_settings` mints around a hook. */
  function Wrap(hook: Dict): Json {
    Obj(Dict(["matcher", "hooks"], map["matcher" := Str("*"), "hooks" := Arr([Obj(hook)])]))
  }

  function HooksOf(entry: Json): seq<Json>
    requires IsWrapper(entry)
  {
    entry.dict.Get("hooks").items
  }

  predicate IsWide(entry: Json)
    requires entry.Obj?
  {
    entry.dict.Get("matcher") == Str("*")
  }

  /** The merge for one event: its name, the authorship verdict, and the hook to install. */
  datatype Merger = Merger(event: string, grade: Dict -> Authorship, desired: Dict) {

    predicate Is(hook: Json, verdict: Authorship) {
      hook.Obj? && grade(hook.dict) == verdict
    }

    predicate Ours(hook: Json) {
      Is(hook, Current) || Is(hook, Stale)
    }

    function MergeHook(wide: bool, hook: Json): Json {
      if wide && Is(hook, Stale) then Obj(desired) else hook
    }

    function MergeHooks(wide: bool, hooks: seq<Json>): seq<Json> {
      seq(|hooks|, j requires 0 <= j < |hooks| => MergeHook(wide, hooks[j]))
    }

    function MergeEntry(entry: Json): Json {
      if IsWrapper(entry)
      then Obj(entry.dict.Set("hooks", Arr(MergeHooks(IsWide(entry), HooksOf(entry)))))
      else entry
    }

    function CountHook(wide: bool, hook: Json): Tally {
      if !hook.Obj? then NOTHING
      else if Is(hook, Foreign) then NOTHING.(foreign := 1)
      else if !wide then NOTHING.(narrow := 1)
      else NOTHING.(covered := true, repaired := if Is(hook, Stale) then 1 else 0)
    }

    function CountHooks(wide: bool, hooks: seq<Json>): Tally {
      if hooks == [] then NOTHING
      else CountHooks(wide, hooks[..|hooks| - 1]).Plus(CountHook(wide, hooks[|hooks| - 1]))
    }

    function CountEntry(entry: Json): Tally {
      if !entry.Obj? then NOTHING
      else if IsWrapper(entry) then CountHooks(IsWide(entry), HooksOf(entry))
      else NOTHING.(malformed := if Ours(entry) then 1 else 0)
    }

    function CountEntries(entries: seq<Json>): Tally {
      if entries == [] then NOTHING
      else CountEntries(entries[..|entries| - 1]).Plus(CountEntry(entries[|entries| - 1]))
    }

    /** The event's list after the merge. */
    function MergeEvent(entries: seq<Json>): seq<Json> {
      seq(|entries|, i requires 0 <= i < |entries| => MergeEntry(entries[i]))
      + (if CountEntries(entries).covered then [] else [Wrap(desired)])
    }

    function Plan(entries: seq<Json>): EventPlan {
      var tally := CountEntries(entries);
      EventPlan(event, tally.Action(), tally)
    }

    /** The entry holds a hook of ours (a stale one) under the wildcard matcher. */
    predicate CoveredBy(entry: Json) {
      IsWrapper(entry) && IsWide(entry) && exists hook | hook in HooksOf(entry) :: Ours(hook)
    }

    predicate HoldsStale(entry: Json) {
      IsWrapper(entry) && IsWide(entry) && exists hook | hook in HooksOf(entry) :: Is(hook, Stale)
    }

    lemma {:induction false} CountHookMeans(wide: bool, hook: Json)
      ensures CountHook(wide, hook).covered <==> wide && Ours(hook)
      ensures CountHook(wide, hook).repaired > 0 <==> wide && Is(hook, Stale)
    {
    }

    lemma {:induction false} CountHooksMeans(wide: bool, hooks: seq<Json>)
      ensures CountHooks(wide, hooks).covered <==> wide && exists hook | hook in hooks :: Ours(hook)
      ensures CountHooks(wide, hooks).repaired > 0 <==> wide && exists hook | hook in hooks :: Is(hook, Stale)
    {
      if hooks != [] {
        var front, last := hooks[..|hooks| - 1], hooks[|hooks| - 1];
        assert hooks == front + [last];
        CountHooksMeans(wide, front);
        CountHookMeans(wide, last);
      }
    }

    lemma {:induction false} CountEntryMeans(entry: Json)
      ensures CountEntry(entry).covered <==> CoveredBy(entry)
      ensures CountEntry(entry).repaired > 0 <==> HoldsStale(entry)
    {
      if IsWrapper(entry) {
        CountHooksMeans(IsWide(entry), HooksOf(entry));
      }
    }

    /** Coverage and repairs, in terms of the hooks actually in the list. */
    lemma {:induction false} CountEntriesMeans(entries: seq<Json>)
      ensures CountEntries(entries).covered <==> exists entry | entry in entries :: CoveredBy(entry)
      ensures CountEntries(entries).repaired > 0 <==> exists entry | entry in entries :: HoldsStale(entry)
    {
      if entries != [] {
        var front, last := entries[..|entries| - 1], entries[|entries| - 1];
        assert entries == front + [last];
        CountEntriesMeans(front);
        CountEntryMeans(last);
      }
    }
  }

  /** The first `i` entries are merged, the rest as they were. */
  ghost predicate PartMerged(m: Merger, was: seq<Json>, now: seq<Json>, i: nat) {
    && i <= |now| == |was|
    && (forall k | 0 <= k < i :: now[k] == m.MergeEntry(was[k]))
    && forall k | i <= k < |was| :: now[k] == was[k]
  }

  lemma {:induction false} AllMerged(m: Merger, was: seq<Json>, now: seq<Json>)
    requires PartMerged(m, was, now, |was|)
    ensures m.MergeEvent(was) == if m.CountEntries(was).covered then now else now + [Wrap(m.desired)]
  {
    assert now == seq(|was|, k requires 0 <= k < |was| => m.MergeEntry(was[k]));
    assert now + [] == now;
  }

  lemma {:induction false} CountEntriesStep(m: Merger, was: seq<Json>, i: nat)
    requires i < |was|
    ensures m.CountEntries(was[..i + 1]) == m.CountEntries(was[..i]).Plus(m.CountEntry(was[i]))
  {
    assert was[..i + 1][..i] == was[..i];
  }

  /** The list a settings.json has under one event name, merged in place. */
  class EventList {
    var entries: seq<Json>

    constructor (entries: seq<Json>)
      ensures this.entries == entries
    {
      this.entries := entries;
    }

    method PlanEvent(m: Merger) returns (plan: EventPlan)
      modifies this
      ensures entries == m.MergeEvent(old(entries))
      ensures plan == m.Plan(old(entries))
    {
      ghost var was := entries;
      var tally := NOTHING;
      var i := 0;
      while i < |entries|
        invariant PartMerged(m, was, entries, i)
        invariant tally == m.CountEntries(was[..i])
      {
        CountEntriesStep(m, was, i);
        var merged, counted := PlanEntry(m, entries[i]);
        entries := entries[i := merged];
        tally := tally.Plus(counted);
        i := i + 1;
      }
      assert was[..i] == was;
      AllMerged(m, was, entries);
      if !tally.covered {
        entries := entries + [Wrap(m.desired)];
      }
      plan := EventPlan(m.event, tally.Action(), tally);
    }
  }

  /** One entry: only wrapped hooks are merged, a flat hook of ours is counted and left. */
  method PlanEntry(m: Merger, entry: Json) returns (merged: Json, tally: Tally)
    ensures merged == m.MergeEntry(entry)
    ensures tally == m.CountEntry(entry)
  {
    merged, tally := entry, NOTHING;
    if !entry.Obj? {
      return;
    }
    if !entry.dict.Get("hooks").Arr? {
      if m.Ours(entry) {
        tally := tally.(malformed := 1);
      }
      return;
    }
    var wrapped;
    wrapped, tally := PlanWrapped(m, entry.dict.Get("matcher") == Str("*"), entry.dict.Get("hooks").items);
    merged := Obj(entry.dict.Set("hooks", Arr(wrapped)));
  }

  /** The inner loop: the hooks wrapped in one entry. */
  method PlanWrapped(m: Merger, wide: bool, hooks: seq<Json>) returns (wrapped: seq<Json>, tally: Tally)
    ensures tally == m.CountHooks(wide, hooks)
    ensures wrapped == m.MergeHooks(wide, hooks)
  {
    wrapped, tally := hooks, NOTHING;
    var j := 0;
    while j < |hooks|
      invariant 0 <= j <= |hooks| == |wrapped|
      invariant tally == m.CountHooks(wide, hooks[..j])
      invariant forall k | 0 <= k < j :: wrapped[k] == m.MergeHook(wide, hooks[k])
      invariant forall k | j <= k < |hooks| :: wrapped[k] == hooks[k]
    {
      assert hooks[..j + 1][..j] == hooks[..j];
      assert m.CountHooks(wide, hooks[..j + 1]) == tally.Plus(m.CountHook(wide, hooks[j]));
      var merged, counted := PlanHook(m, wide, wrapped[j]);
      wrapped := wrapped[j := merged];
      tally := tally.Plus(counted);
      j := j + 1;
    }
    assert hooks[..j] == hooks;
  }

  /** One hook: foreign ones and ours under a narrow matcher are counted and left, a stale one under `"*"` is rewritten. */
  method PlanHook(m: Merger, wide: bool, hook: Json) returns (merged: Json, tally: Tally)
    ensures merged == m.MergeHook(wide, hook)
    ensures tally == m.CountHook(wide, hook)
  {
    merged, tally := hook, NOTHING;
    if !hook.Obj? {
      return;
    }
    if m.Is(hook, Foreign) {
      tally := tally.(foreign := 1);
      return;
    }
    if !wide {
      tally := tally.(narrow := 1);
      return;
    }
    tally := tally.(covered := true);
    if m.Is(hook, Stale) {
      merged := Obj(m.desired);
      tally := tally.(repaired := 1);
    }
  }
}
