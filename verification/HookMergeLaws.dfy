/** What the merge of one event's list keeps, and when a second merge finds nothing left to do. */
module HookMergeLaws {
  import opened Json
  import opened HookAuthorship
  import opened HookMerge

  /** The hook being installed is one the same authorship test recognises as current. */
  predicate Sound(m: Merger) {
    m.grade(m.desired) == Current
  }

  /** Everything a merge may do to one entry: replace stale hooks under the wildcard matcher, each in its place. */
  predicate EntryPreserved(m: Merger, was: Json, now: Json) {
    || now == was
    || (&& IsWrapper(was) && IsWide(was) && IsWrapper(now)
        && now.dict.order == was.dict.order
        && now.dict.entries == was.dict.entries["hooks" := Arr(HooksOf(now))]
        && |HooksOf(now)| == |HooksOf(was)|
        && forall j | 0 <= j < |HooksOf(was)| ::
             || HooksOf(now)[j] == HooksOf(was)[j]
             || (m.Is(HooksOf(was)[j], Stale) && HooksOf(now)[j] == Obj(m.desired)))
  }

  lemma {:induction false} EntryIsPreserved(m: Merger, entry: Json)
    ensures EntryPreserved(m, entry, m.MergeEntry(entry))
  {
    if IsWrapper(entry) {
      var hooks := HooksOf(entry);
      if !IsWide(entry) {
        assert m.MergeHooks(false, hooks) == hooks;
        entry.dict.SetSame("hooks");
      }
    }
  }

  /** Every entry keeps its index, and the list grows by our entry exactly when no hook of ours was under `"*"`. */
  lemma {:induction false} EventIsPreserved(m: Merger, entries: seq<Json>)
    ensures var merged := m.MergeEvent(entries);
      && (forall i | 0 <= i < |entries| :: i < |merged| && EntryPreserved(m, entries[i], merged[i]))
      && merged[|entries|..] == if exists entry | entry in entries :: m.CoveredBy(entry) then [] else [Wrap(m.desired)]
  {
    m.CountEntriesMeans(entries);
    forall i | 0 <= i < |entries|
      ensures EntryPreserved(m, entries[i], m.MergeEvent(entries)[i])
    {
      EntryIsPreserved(m, entries[i]);
    }
  }

  lemma {:induction false} MergeEntryFacts(m: Merger, entry: Json)
    requires Sound(m)
    ensures m.CoveredBy(m.MergeEntry(entry)) <==> m.CoveredBy(entry)
    ensures !m.HoldsStale(m.MergeEntry(entry))
    ensures m.MergeEntry(m.MergeEntry(entry)) == m.MergeEntry(entry)
  {
    if IsWrapper(entry) {
      var was, now := HooksOf(entry), m.MergeHooks(IsWide(entry), HooksOf(entry));
      var merged := m.MergeEntry(entry);
      assert IsWrapper(merged) && HooksOf(merged) == now && IsWide(merged) == IsWide(entry);
      assert m.MergeHooks(IsWide(entry), now) == now;
      merged.dict.SetSame("hooks");
      if hook :| hook in was && m.Ours(hook) {
        var j :| 0 <= j < |was| && was[j] == hook;
        assert m.Ours(now[j]) || !IsWide(entry);
      }
      if hook :| hook in now && m.Ours(hook) {
        var j :| 0 <= j < |now| && now[j] == hook;
        assert m.Ours(was[j]);
      }
    }
  }

  lemma {:induction false} WrapFacts(m: Merger)
    ensures var entry := Wrap(m.desired);
      IsWrapper(entry) && IsWide(entry) && HooksOf(entry) == [Obj(m.desired)]
    ensures Sound(m) ==> m.CoveredBy(Wrap(m.desired)) && !m.HoldsStale(Wrap(m.desired)) && m.MergeEntry(Wrap(m.desired)) == Wrap(m.desired)
    ensures !Sound(m) ==> !m.CoveredBy(Wrap(m.desired)) || m.HoldsStale(Wrap(m.desired))
  {
    var entry := Wrap(m.desired);
    assert |"matcher"| != |"hooks"|;
    assert entry.dict.Get("hooks") == Arr([Obj(m.desired)]);
    assert HooksOf(entry)[0] == Obj(m.desired);
    if Sound(m) {
      assert m.Ours(Obj(m.desired));
      assert m.MergeHooks(true, HooksOf(entry)) == HooksOf(entry);
      entry.dict.SetSame("hooks");
    }
  }

  lemma {:induction false} MergedEntrySettles(m: Merger, entries: seq<Json>, i: nat)
    requires Sound(m) && i < |m.MergeEvent(entries)|
    ensures var entry := m.MergeEvent(entries)[i]; m.MergeEntry(entry) == entry && !m.HoldsStale(entry)
  {
    if i < |entries| {
      MergeEntryFacts(m, entries[i]);
    } else {
      WrapFacts(m);
    }
  }

  lemma {:induction false} MergedIsCovered(m: Merger, entries: seq<Json>)
    requires Sound(m)
    ensures exists entry | entry in m.MergeEvent(entries) :: m.CoveredBy(entry)
  {
    var merged := m.MergeEvent(entries);
    m.CountEntriesMeans(entries);
    if m.CountEntries(entries).covered {
      var entry :| entry in entries && m.CoveredBy(entry);
      var i :| 0 <= i < |entries| && entries[i] == entry;
      MergeEntryFacts(m, entry);
      assert merged[i] in merged && m.CoveredBy(merged[i]);
    } else {
      WrapFacts(m);
      assert merged[|entries|] in merged;
    }
  }

  lemma {:induction false} SettledEventIsKept(m: Merger, entries: seq<Json>)
    requires forall i | 0 <= i < |entries| :: m.MergeEntry(entries[i]) == entries[i] && !m.HoldsStale(entries[i])
    requires exists entry | entry in entries :: m.CoveredBy(entry)
    ensures m.MergeEvent(entries) == entries && m.Plan(entries).action == Ok
  {
    m.CountEntriesMeans(entries);
  }

  /** Merging twice is merging once, and the second pass reports `ok`. */
  lemma {:induction false} EventFixedPoint(m: Merger, entries: seq<Json>)
    requires Sound(m)
    ensures m.MergeEvent(m.MergeEvent(entries)) == m.MergeEvent(entries)
    ensures m.Plan(m.MergeEvent(entries)).action == Ok
  {
    var merged := m.MergeEvent(entries);
    forall i | 0 <= i < |merged|
      ensures m.MergeEntry(merged[i]) == merged[i] && !m.HoldsStale(merged[i])
    {
      MergedEntrySettles(m, entries, i);
    }
    MergedIsCovered(m, entries);
    SettledEventIsKept(m, merged);
  }

  /** With a hook the authorship test does not call current, even an empty list never settles. */
  lemma {:induction false} UnsoundNeverSettles(m: Merger)
    requires !Sound(m)
    ensures m.Plan(m.MergeEvent([])).action != Ok
  {
    var entry := Wrap(m.desired);
    assert m.MergeEvent([]) == [entry];
    m.CountEntriesMeans([entry]);
    WrapFacts(m);
    assert entry in [entry];
  }

  lemma {:induction false} OkMeansUntouched(m: Merger, entries: seq<Json>)
    requires m.Plan(entries).action == Ok
    ensures m.MergeEvent(entries) == entries
  {
    m.CountEntriesMeans(entries);
    forall i | 0 <= i < |entries|
      ensures m.MergeEntry(entries[i]) == entries[i]
    {
      var entry := entries[i];
      assert !m.HoldsStale(entry);
      if IsWrapper(entry) {
        assert m.MergeHooks(IsWide(entry), HooksOf(entry)) == HooksOf(entry);
        entry.dict.SetSame("hooks");
      }
    }
  }

  lemma {:induction false} NotOkMeansChanged(m: Merger, entries: seq<Json>)
    requires Sound(m) && m.Plan(entries).action != Ok
    ensures m.MergeEvent(entries) != entries
  {
    m.CountEntriesMeans(entries);
    if m.CountEntries(entries).covered {
      var entry :| entry in entries && m.HoldsStale(entry);
      var i :| 0 <= i < |entries| && entries[i] == entry;
      MergeEntryFacts(m, entry);
      assert m.MergeEvent(entries)[i] == m.MergeEntry(entry) != entry;
    }
  }

  /** Under `"*"` a stale hook is rewritten in its place, and nothing is appended beside it. */
  lemma {:induction false} StaleIsRewritten(m: Merger, entries: seq<Json>, i: nat, j: nat)
    requires i < |entries| && IsWrapper(entries[i]) && IsWide(entries[i])
    requires j < |HooksOf(entries[i])| && m.Is(HooksOf(entries[i])[j], Stale)
    ensures var merged := m.MergeEvent(entries);
      |merged| == |entries| && IsWrapper(merged[i]) && j < |HooksOf(merged[i])| && HooksOf(merged[i])[j] == Obj(m.desired)
    ensures m.Plan(entries).action == Repair
  {
    m.CountEntriesMeans(entries);
    assert HooksOf(entries[i])[j] in HooksOf(entries[i]);
    assert m.HoldsStale(entries[i]) && m.CoveredBy(entries[i]) && entries[i] in entries;
    assert HooksOf(m.MergeEntry(entries[i])) == m.MergeHooks(true, HooksOf(entries[i]));
  }

  // What the counts count.

  /** A hook in a wrapped list, and whether it stands under `"*"`. */
  datatype Placed = Placed(wide: bool, hook: Json)

  function PlacedIn(entry: Json): seq<Placed> {
    if !IsWrapper(entry) then []
    else seq(|HooksOf(entry)|, j requires 0 <= j < |HooksOf(entry)| => Placed(IsWide(entry), HooksOf(entry)[j]))
  }

  function AllPlaced(entries: seq<Json>): seq<Placed> {
    if entries == [] then [] else AllPlaced(entries[..|entries| - 1]) + PlacedIn(entries[|entries| - 1])
  }

  function HowMany<T>(items: seq<T>, p: T -> bool): nat {
    if items == [] then 0 else HowMany(items[..|items| - 1], p) + if p(items[|items| - 1]) then 1 else 0
  }

  lemma {:induction false} HowManyConcat<T>(a: seq<T>, b: seq<T>, p: T -> bool)
    ensures HowMany(a + b, p) == HowMany(a, p) + HowMany(b, p)
    decreases |b|
  {
    if b == [] {
      assert a + b == a;
    } else {
      HowManyConcat(a, b[..|b| - 1], p);
      assert (a + b)[..|a + b| - 1] == a + b[..|b| - 1];
    }
  }

  function IsForeign(m: Merger): Placed -> bool {
    (p: Placed) => m.Is(p.hook, Foreign)
  }

  function IsNarrow(m: Merger): Placed -> bool {
    (p: Placed) => m.Ours(p.hook) && !p.wide
  }

  function IsRepaired(m: Merger): Placed -> bool {
    (p: Placed) => m.Is(p.hook, Stale) && p.wide
  }

  function IsFlatOurs(m: Merger): Json -> bool {
    (entry: Json) => !IsWrapper(entry) && m.Ours(entry)
  }

  lemma {:induction false} HooksCounted(m: Merger, wide: bool, hooks: seq<Json>, placed: seq<Placed>)
    requires |placed| == |hooks| && forall j | 0 <= j < |hooks| :: placed[j] == Placed(wide, hooks[j])
    ensures var tally := m.CountHooks(wide, hooks);
      && tally.foreign == HowMany(placed, IsForeign(m)) && tally.narrow == HowMany(placed, IsNarrow(m))
      && tally.repaired == HowMany(placed, IsRepaired(m)) && tally.malformed == 0
  {
    if hooks != [] {
      var n := |hooks| - 1;
      HooksCounted(m, wide, hooks[..n], placed[..n]);
      HookCounted(m, wide, hooks[n]);
      assert m.CountHooks(wide, hooks) == m.CountHooks(wide, hooks[..n]).Plus(m.CountHook(wide, hooks[n]));
      assert placed[n] == Placed(wide, hooks[n]);
    }
  }

  lemma {:induction false} HookCounted(m: Merger, wide: bool, hook: Json)
    ensures var tally, p := m.CountHook(wide, hook), Placed(wide, hook);
      && tally.foreign == (if IsForeign(m)(p) then 1 else 0) && tally.narrow == (if IsNarrow(m)(p) then 1 else 0)
      && tally.repaired == (if IsRepaired(m)(p) then 1 else 0) && tally.malformed == 0
  {
  }

  /** The numbers a plan reports: the hooks of other people, ours under a narrow matcher, ours that are rewritten, each counted once
      where they are wrapped, and ours that are not wrapped at all. */
  lemma {:induction false} TallyCounts(m: Merger, entries: seq<Json>)
    ensures var tally, placed := m.Plan(entries).tally, AllPlaced(entries);
      && tally.foreign == HowMany(placed, IsForeign(m)) && tally.narrow == HowMany(placed, IsNarrow(m))
      && tally.repaired == HowMany(placed, IsRepaired(m)) && tally.malformed == HowMany(entries, IsFlatOurs(m))
  {
    if entries != [] {
      var front, last := entries[..|entries| - 1], entries[|entries| - 1];
      TallyCounts(m, front);
      EntryCounted(m, last);
      HowManyConcat(AllPlaced(front), PlacedIn(last), IsForeign(m));
      HowManyConcat(AllPlaced(front), PlacedIn(last), IsNarrow(m));
      HowManyConcat(AllPlaced(front), PlacedIn(last), IsRepaired(m));
    }
  }

  lemma {:induction false} EntryCounted(m: Merger, entry: Json)
    ensures var tally, placed := m.CountEntry(entry), PlacedIn(entry);
      && tally.foreign == HowMany(placed, IsForeign(m)) && tally.narrow == HowMany(placed, IsNarrow(m))
      && tally.repaired == HowMany(placed, IsRepaired(m)) && tally.malformed == if IsFlatOurs(m)(entry) then 1 else 0
  {
    if IsWrapper(entry) {
      HooksCounted(m, IsWide(entry), HooksOf(entry), PlacedIn(entry));
    }
  }

  /** The action of a plan: a repair when one of ours is rewritten, else an addition when none of ours is under `"*"`, else nothing. */
  lemma {:induction false} ActionMeans(m: Merger, entries: seq<Json>)
    ensures var stale, covered := exists entry | entry in entries :: m.HoldsStale(entry), exists entry | entry in entries :: m.CoveredBy(entry);
      m.Plan(entries) == EventPlan(m.event, if stale then Repair else if !covered then Add else Ok, m.Plan(entries).tally)
  {
    m.CountEntriesMeans(entries);
  }
}
