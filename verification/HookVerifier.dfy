/** Grading a settings.json that already exists: the check that is independent of the installer. */
module HookVerifier {
  import opened Json
  import opened HookAuthorship
  import opened HookMerge

  datatype Reason = LegacyType | CommandNotText | WrongBase | WrongMatcher

  datatype Verdict = VOk | VMissing | VMalformed | VMismatch(reason: Reason)

  /** The two tests behind a verdict: does a hook target our endpoint, and what is wrong with it under a matcher. */
  datatype Verifier = Verifier(event: string, ours: Dict -> bool, verdict: (Dict, Json) -> Verdict) {

    ghost predicate OursIn(entry: Json, hook: Json)
      requires IsWrapper(entry)
    {
      hook in HooksOf(entry) && hook.Obj? && ours(hook.dict)
    }

    ghost predicate HoldsOk(entry: Json) {
      IsWrapper(entry)
      && exists hook | hook in HooksOf(entry) :: OursIn(entry, hook) && verdict(hook.dict, entry.dict.Get("matcher")) == VOk
    }

    /** One of our hooks sitting flat in the event array. */
    ghost predicate FlatOurs(entry: Json) {
      entry.Obj? && !IsWrapper(entry) && ours(entry.dict)
    }

    /** An `ok` hook is reached before any flat one. */
    ghost predicate VerifiesAt(entries: seq<Json>, i: nat) {
      i < |entries| && HoldsOk(entries[i]) && forall k | 0 <= k < i :: !FlatOurs(entries[k])
    }

    ghost predicate Verifies(entries: seq<Json>) {
      exists i :: VerifiesAt(entries, i)
    }

    /** A flat hook is reached before any `ok` one. */
    ghost predicate TripsAt(entries: seq<Json>, i: nat) {
      i < |entries| && FlatOurs(entries[i]) && forall k | 0 <= k < i :: !HoldsOk(entries[k])
    }

    ghost predicate HoldsOurs(entry: Json) {
      IsWrapper(entry) && exists hook | hook in HooksOf(entry) :: OursIn(entry, hook)
    }

    /** The `j`th hook of this entry is the first of ours in it, and this is its verdict. */
    ghost predicate FirstIn(entry: Json, j: nat, verdict': Verdict) {
      && IsWrapper(entry) && j < |HooksOf(entry)| && OursIn(entry, HooksOf(entry)[j])
      && verdict(HooksOf(entry)[j].dict, entry.dict.Get("matcher")) == verdict'
      && forall k | 0 <= k < j :: !OursIn(entry, HooksOf(entry)[k])
    }

    ghost predicate FirstOfEntry(entry: Json, verdict': Verdict) {
      exists j :: FirstIn(entry, j, verdict')
    }

    /** The first wrapped hook of ours in the event stands in this entry, and this is its verdict. */
    ghost predicate FirstAt(entries: seq<Json>, i: nat, verdict': Verdict) {
      i < |entries| && FirstOfEntry(entries[i], verdict') && forall k | 0 <= k < i :: !HoldsOurs(entries[k])
    }
  }

  /** What `_classify_event` must answer for one event's value. */
  ghost predicate Judges(v: Verifier, value: Json, verdict: Verdict) {
    if !value.Arr? then verdict == VMissing
    else
      var entries := value.items;
      && (verdict == VOk <==> v.Verifies(entries))
      && (verdict == VMalformed <==> exists i :: v.TripsAt(entries, i))
      && (verdict.VMismatch? ==> exists i :: v.FirstAt(entries, i, verdict))
      && (verdict == VMissing ==> forall entry | entry in entries :: !v.FlatOurs(entry) && !v.HoldsOurs(entry))
  }

  /** The verdict function of a verifier only ever answers `ok` or a mismatch. */
  ghost predicate Grades(v: Verifier) {
    forall hook, matcher :: v.verdict(hook, matcher) == VOk || v.verdict(hook, matcher).VMismatch?
  }

  method ClassifyEvent(v: Verifier, value: Json) returns (verdict: Verdict)
    requires Grades(v)
    ensures Judges(v, value, verdict)
  {
    if !value.Arr? {
      return VMissing;
    }
    var entries := value.items;
    var best := VMissing;
    var i := 0;
    while i < |entries|
      invariant 0 <= i <= |entries|
      invariant forall k | 0 <= k < i :: !v.HoldsOk(entries[k]) && !v.FlatOurs(entries[k])
      invariant best.VMissing? || (best.VMismatch? && exists k :: v.FirstAt(entries, k, best))
      invariant best.VMissing? ==> forall k | 0 <= k < i :: !v.HoldsOurs(entries[k])
    {
      var entry := entries[i];
      if entry.Obj? {
        if entry.dict.Get("hooks").Arr? {
          var ok, found := ClassifyWrapped(v, entry);
          if ok {
            assert v.VerifiesAt(entries, i);
            return VOk;
          }
          if best.VMissing? {
            assert !found.VMissing? ==> v.FirstAt(entries, i, found);
            best := found;
          }
        } else if v.ours(entry.dict) {
          assert v.TripsAt(entries, i);
          return VMalformed;
        }
      }
      i := i + 1;
    }
    verdict := best;
  }

  /** The inner loop: does one entry hold an `ok` hook, and if not, what is the first thing wrong with ours in it? */
  method ClassifyWrapped(v: Verifier, entry: Json) returns (ok: bool, found: Verdict)
    requires Grades(v) && IsWrapper(entry)
    ensures ok <==> v.HoldsOk(entry)
    ensures !ok ==> (found == VMissing <==> !v.HoldsOurs(entry))
    ensures !ok && found != VMissing ==> found.VMismatch? && v.FirstOfEntry(entry, found)
  {
    var hooks, matcher := HooksOf(entry), entry.dict.Get("matcher");
    found := VMissing;
    var j := 0;
    while j < |hooks|
      invariant 0 <= j <= |hooks|
      invariant forall k | 0 <= k < j && v.OursIn(entry, hooks[k]) :: v.verdict(hooks[k].dict, matcher) != VOk
      invariant found == VMissing <==> forall k | 0 <= k < j :: !v.OursIn(entry, hooks[k])
      invariant found == VMissing || (found.VMismatch? && v.FirstOfEntry(entry, found))
    {
      var hook := hooks[j];
      if hook.Obj? && v.ours(hook.dict) {
        assert v.OursIn(entry, hook);
        var verdict := v.verdict(hook.dict, matcher);
        if verdict == VOk {
          return true, found;
        }
        if found == VMissing {
          assert v.FirstIn(entry, j, verdict);
          found := verdict;
        }
      }
      j := j + 1;
    }
    ok := false;
  }

  /** The hook the installer writes is one the verifier accepts under `"*"`. */
  ghost predicate Accepts(v: Verifier, m: Merger) {
    v.ours(m.desired) && v.verdict(m.desired, Str("*")) == VOk
  }

  /** Read off the file before installing: will the event verify afterwards? */
  ghost predicate WillVerifyAt(v: Verifier, m: Merger, entries: seq<Json>, i: nat) {
    && i < |entries|
    && (v.HoldsOk(entries[i]) || m.HoldsStale(entries[i]))
    && forall k | 0 <= k < i :: !v.FlatOurs(entries[k])
  }

  ghost predicate WillVerify(v: Verifier, m: Merger, entries: seq<Json>) {
    || (exists i :: WillVerifyAt(v, m, entries, i))
    || ((forall entry | entry in entries :: !m.CoveredBy(entry)) && (forall entry | entry in entries :: !v.FlatOurs(entry)))
  }

  /** The verifier never answers `ok` except under the wildcard matcher. */
  ghost predicate WantsWildcard(v: Verifier) {
    forall hook, matcher :: v.verdict(hook, matcher) == VOk ==> matcher == Str("*")
  }

  lemma {:induction false} MergedEntryVerdict(v: Verifier, m: Merger, entry: Json)
    requires Accepts(v, m) && WantsWildcard(v)
    ensures v.FlatOurs(m.MergeEntry(entry)) <==> v.FlatOurs(entry)
    ensures v.HoldsOk(m.MergeEntry(entry)) <==> v.HoldsOk(entry) || m.HoldsStale(entry)
  {
    if IsWrapper(entry) {
      var was, merged := HooksOf(entry), m.MergeEntry(entry);
      var now := m.MergeHooks(IsWide(entry), was);
      var matcher := entry.dict.Get("matcher");
      assert IsWrapper(merged) && HooksOf(merged) == now && merged.dict.Get("matcher") == matcher;
      if v.HoldsOk(entry) {
        var hook :| hook in was && v.OursIn(entry, hook) && v.verdict(hook.dict, matcher) == VOk;
        var j :| 0 <= j < |was| && was[j] == hook;
        assert v.OursIn(merged, now[j]);
      } else if m.HoldsStale(entry) {
        var hook :| hook in was && m.Is(hook, Stale);
        var j :| 0 <= j < |was| && was[j] == hook;
        assert now[j] == Obj(m.desired) && v.OursIn(merged, now[j]);
      }
      if v.HoldsOk(merged) {
        OkCameFrom(v, m, entry);
      }
    }
  }

  /** An accepted hook after the merge was accepted before it, or replaced a stale one. */
  lemma {:induction false} OkCameFrom(v: Verifier, m: Merger, entry: Json)
    requires IsWrapper(entry) && WantsWildcard(v) && v.HoldsOk(m.MergeEntry(entry))
    ensures v.HoldsOk(entry) || m.HoldsStale(entry)
  {
  }

  lemma {:induction false} WrapVerifies(v: Verifier, m: Merger)
    requires Accepts(v, m)
    ensures v.HoldsOk(Wrap(m.desired)) && !v.FlatOurs(Wrap(m.desired))
  {
  }

  /** Installer and verifier agree exactly on the files where no flat hook hides the installed one. */
  lemma {:induction false} InstalledEventVerifiesIff(v: Verifier, m: Merger, entries: seq<Json>)
    requires Accepts(v, m) && WantsWildcard(v)
    ensures v.Verifies(m.MergeEvent(entries)) <==> WillVerify(v, m, entries)
  {
    var merged := m.MergeEvent(entries);
    var covered := m.CountEntries(entries).covered;
    m.CountEntriesMeans(entries);
    WrapVerifies(v, m);
    forall i | 0 <= i < |entries|
      ensures v.FlatOurs(merged[i]) <==> v.FlatOurs(entries[i])
      ensures v.HoldsOk(merged[i]) <==> v.HoldsOk(entries[i]) || m.HoldsStale(entries[i])
    {
      MergedEntryVerdict(v, m, entries[i]);
    }
    if v.Verifies(merged) {
      var i: nat :| v.VerifiesAt(merged, i);
      if i < |entries| {
        assert WillVerifyAt(v, m, entries, i);
      }
    }
    if WillVerify(v, m, entries) {
      if i: nat :| WillVerifyAt(v, m, entries, i) {
        assert v.VerifiesAt(merged, i);
      } else {
        assert v.VerifiesAt(merged, |entries|);
      }
    }
  }

  // A merger whose own hook the verifier refuses.

  /** An accepted hook the merge leaves alone. */
  ghost predicate KeepsOk(v: Verifier, m: Merger, entry: Json) {
    IsWrapper(entry)
    && exists hook | hook in HooksOf(entry) ::
         v.OursIn(entry, hook) && v.verdict(hook.dict, entry.dict.Get("matcher")) == VOk && !m.Is(hook, Stale)
  }

  ghost predicate WillStayAt(v: Verifier, m: Merger, entries: seq<Json>, i: nat) {
    i < |entries| && KeepsOk(v, m, entries[i]) && forall k | 0 <= k < i :: !v.FlatOurs(entries[k])
  }

  lemma {:induction false} RefusedEntryVerdict(v: Verifier, m: Merger, entry: Json)
    requires v.verdict(m.desired, Str("*")) != VOk && WantsWildcard(v)
    ensures v.FlatOurs(m.MergeEntry(entry)) <==> v.FlatOurs(entry)
    ensures v.HoldsOk(m.MergeEntry(entry)) <==> KeepsOk(v, m, entry)
  {
    if IsWrapper(entry) {
      var was, merged := HooksOf(entry), m.MergeEntry(entry);
      var now := m.MergeHooks(IsWide(entry), was);
      var matcher := entry.dict.Get("matcher");
      assert IsWrapper(merged) && HooksOf(merged) == now && merged.dict.Get("matcher") == matcher;
      if KeepsOk(v, m, entry) {
        var hook :| hook in was && v.OursIn(entry, hook) && v.verdict(hook.dict, matcher) == VOk && !m.Is(hook, Stale);
        var j :| 0 <= j < |was| && was[j] == hook;
        assert v.OursIn(merged, now[j]);
      }
      if v.HoldsOk(merged) {
        var hook :| hook in now && v.OursIn(merged, hook) && v.verdict(hook.dict, matcher) == VOk;
        var j :| 0 <= j < |now| && now[j] == hook;
        assert was[j] in was && now[j] == was[j];
      }
    }
  }

  /** Then the merge helps nothing: the event verifies exactly when an accepted hook was there that is not rewritten, and no flat
      one stands before it. */
  lemma {:induction false} RefusedEventVerifiesIff(v: Verifier, m: Merger, entries: seq<Json>)
    requires v.verdict(m.desired, Str("*")) != VOk && WantsWildcard(v)
    ensures v.Verifies(m.MergeEvent(entries)) <==> exists i :: WillStayAt(v, m, entries, i)
  {
    var merged := m.MergeEvent(entries);
    forall i | 0 <= i < |entries|
      ensures v.FlatOurs(merged[i]) <==> v.FlatOurs(entries[i])
      ensures v.HoldsOk(merged[i]) <==> KeepsOk(v, m, entries[i])
    {
      RefusedEntryVerdict(v, m, entries[i]);
    }
    RefusedWrap(v, m);
    if v.Verifies(merged) {
      var i: nat :| v.VerifiesAt(merged, i);
      assert WillStayAt(v, m, entries, i);
    }
    if i: nat :| WillStayAt(v, m, entries, i) {
      assert v.VerifiesAt(merged, i);
    }
  }

  lemma {:induction false} RefusedWrap(v: Verifier, m: Merger)
    requires v.verdict(m.desired, Str("*")) != VOk
    ensures !v.HoldsOk(Wrap(m.desired))
  {
  }
}
