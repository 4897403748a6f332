/** The registry's merge and the registry's verifier put together: what an install promises. */
module HookInstaller {
  import opened Text
  import opened Json
  import opened HookRegistry
  import opened HookAuthorship
  import opened HookMerge
  import opened HookMergeLaws
  import Settings = SettingsMerge
  import opened HookVerifier

  function MergerFor(h: Host, spec: HookEvent, base: string): Merger {
    Merger(spec.event, hook => Grade(h, hook, spec, base), DesiredHook(spec, base))
  }

  function Mergers(h: Host, base: string): (ms: seq<Merger>)
    ensures |ms| == |HOOK_EVENTS|
    ensures forall i | 0 <= i < |ms| :: ms[i] == MergerFor(h, HOOK_EVENTS[i], base)
  {
    seq(|HOOK_EVENTS|, i requires 0 <= i < |HOOK_EVENTS| => MergerFor(h, HOOK_EVENTS[i], base))
  }

  /** `_plan_settings_body` for the whole registry. */
  function Plan(h: Host, base: string, parsed: Json): Settings.Outcome {
    Settings.PlanSettings(Mergers(h, base), parsed)
  }

  lemma {:induction false} MergersFacts(h: Host, base: string)
    ensures |Mergers(h, base)| == 22
    ensures Settings.DistinctEvents(Mergers(h, base))
  {
    RegistryIsDistinct();
    forall i, j | 0 <= i < j < |Mergers(h, base)|
      ensures Mergers(h, base)[i].event != Mergers(h, base)[j].event
    {
      assert HOOK_EVENTS[i].event != HOOK_EVENTS[j].event;
    }
  }

  lemma {:induction false} SoundIffCanonical(h: Host, spec: HookEvent, base: string)
    ensures Sound(MergerFor(h, spec, base)) <==> Canonical(h, base)
  {
    MintedIsCurrentIff(h, spec, base);
  }

  /** A second install of an accepted body finds every event `ok` and returns the same body. */
  ghost predicate Settles(h: Host, base: string, body: Dict) {
    var first := Plan(h, base, Obj(body));
    first.Merged? ==>
      var again := Plan(h, base, Obj(first.body));
      again.Merged? && again.body == first.body && Settings.AllOk(again.plan)
  }

  /** An install settles every file in one step exactly for the base URLs that are among their own aliases. */
  lemma {:induction false} InstallSettlesIff(h: Host, base: string)
    ensures (forall body :: Settles(h, base, body)) <==> Canonical(h, base)
  {
    var ms := Mergers(h, base);
    MergersFacts(h, base);
    forall i | 0 <= i < |ms|
      ensures Sound(ms[i]) <==> Canonical(h, base)
    {
      SoundIffCanonical(h, HOOK_EVENTS[i], base);
    }
    if Canonical(h, base) {
      forall body
        ensures Settles(h, base, body)
      {
        SoundSettles(h, base, body);
      }
    } else {
      EmptyFileNeverSettles(ms);
      assert !Settles(h, base, EMPTY);
    }
  }

  lemma {:induction false} SoundSettles(h: Host, base: string, body: Dict)
    requires forall i | 0 <= i < |Mergers(h, base)| :: Sound(Mergers(h, base)[i])
    ensures Settles(h, base, body)
  {
    MergersFacts(h, base);
    if Plan(h, base, Obj(body)).Merged? {
      Settings.FixedPoint(Mergers(h, base), body);
    }
  }

  lemma {:induction false} EmptyFileNeverSettles(ms: seq<Merger>)
    requires Settings.DistinctEvents(ms) && ms != [] && !Sound(ms[0])
    ensures var first := Settings.PlanSettings(ms, Obj(EMPTY));
      first.Merged? && !Settings.AllOk(Settings.PlanSettings(ms, Obj(first.body)).plan)
  {
    Settings.RefusedIff(ms, Obj(EMPTY));
    var first := Settings.PlanSettings(ms, Obj(EMPTY));
    Settings.MergedEvents(ms, EMPTY);
    UnsoundNeverSettles(ms[0]);
    var again := Settings.PlanSettings(ms, Obj(first.body));
    assert again.plan[0] == ms[0].Plan(ms[0].MergeEvent([]));
  }

  /** The alias builder drops a path, so a base URL that has one is not among its own aliases. */
  lemma {:induction false} PathedBaseIsNotCanonical(h: Host)
    requires h.split("http://localhost/x") == Url("http", "localhost", None)
    ensures !Canonical(h, "http://localhost/x")
    ensures exists body :: !Settles(h, "http://localhost/x", body)
  {
    var base := "http://localhost/x";
    assert base[|base| - 1] == 'x';
    assert DropTrailing(base, '/') == base;
    assert LOOPBACK_HOSTS[0] == "localhost" && "localhost" in LOOPBACK_HOSTS;
    AliasesHaveLengths(h, base);
    InstallSettlesIff(h, base);
  }

  lemma {:induction false} AliasesHaveLengths(h: Host, base: string)
    requires h.split(base) == Url("http", "localhost", None)
    ensures forall alias | alias in EquivalentBases(h, base) :: alias == "http" + "://" + "localhost" || alias == "http" + "://" + "127.0.0.1" || alias == "http" + "://" + "[::1]"
  {
    assert ':' !in "localhost";
    assert LOOPBACK_HOSTS[1..][1..][1..] == [];
    assert AliasesExcept(LOOPBACK_HOSTS[1..][1..][1..], "localhost", "http", "") == [];
    assert LOOPBACK_HOSTS[1..][1..][0] == "[::1]";
    assert LOOPBACK_HOSTS[1..][0] == "127.0.0.1";
  }

  // The verifier's two tests, for one event of the registry.

  predicate HookIsOurs(h: Host, hook: Dict, path: string) {
    || (hook.Get("command").Str? && ContainsBounded(hook.Get("command").s, path, h.IsWord()))
    || (hook.Get("url").Str? && ContainsBounded(hook.Get("url").s, path, h.IsWord()))
  }

  /** `_verdict_for_hook`. */
  function VerdictForHook(hook: Dict, matcher: Json, path: string, aliases: seq<string>): Verdict {
    if hook.Get("type") != Str("command") then VMismatch(LegacyType)
    else if !hook.Get("command").Str? then VMismatch(CommandNotText)
    else if !exists i | 0 <= i < |aliases| :: Contains(hook.Get("command").s, aliases[i] + path) then VMismatch(WrongBase)
    else if matcher != Str("*") then VMismatch(WrongMatcher)
    else VOk
  }

  function VerifierFor(h: Host, spec: HookEvent, base: string): Verifier {
    Verifier(spec.event,
             hook => HookIsOurs(h, hook, spec.path),
             (hook, matcher) => VerdictForHook(hook, matcher, spec.path, EquivalentBases(h, base)))
  }

  lemma {:induction false} VerifierFacts(h: Host, spec: HookEvent, base: string)
    ensures Grades(VerifierFor(h, spec, base)) && WantsWildcard(VerifierFor(h, spec, base))
  {
  }

  lemma {:induction false} MintedIsVerified(h: Host, hook: Dict, spec: HookEvent, aliases: seq<string>, alias: string)
    requires alias in aliases
    requires hook.Get("command").Str? && Strip(hook.Get("command").s) == CurlCommand(alias, spec)
    ensures HookIsOurs(h, hook, spec.path)
    ensures hook.Get("type") == Str("command") ==> VerdictForHook(hook, Str("*"), spec.path, aliases) == VOk
  {
    var left, right := StripSplits(hook.Get("command").s);
    EndpointIsFound(h, hook.Get("command").s, left, CurlPrefix(spec.discardsStdout), alias, spec.path,
                    CurlSuffix(spec.discardsStdout), right);
    var i :| 0 <= i < |aliases| && aliases[i] == alias;
    assert Contains(hook.Get("command").s, aliases[i] + spec.path);
  }

  lemma {:induction false} EndpointIsFound(h: Host, s: string, left: string, prefix: string, alias: string,
          path: string, suffix: string, right: string)
    requires s == left + (prefix + (alias + path) + suffix) + right
    requires suffix != "" && suffix[0] == ' '
    ensures ContainsBounded(s, path, h.IsWord()) && Contains(s, alias + path)
  {
    assert s == (left + prefix + alias) + path + (suffix + right);
    ConcatContainsBounded(left + prefix + alias, path, suffix + right, h.IsWord());
    assert s == (left + prefix) + (alias + path) + (suffix + right);
    ConcatContainsMiddle(left + prefix, alias + path, suffix + right);
  }

  lemma {:induction false} StripSplits(s: string) returns (left: string, right: string)
    ensures s == left + Strip(s) + right
  {
    var l := StripLeftSplits(s);
    var r := StripRightSplits(StripLeft(s));
    left, right := l, r;
  }

  lemma {:induction false} StripLeftSplits(s: string) returns (left: string)
    ensures s == left + StripLeft(s)
  {
    if s != "" && IsSpace(s[0]) {
      var rest := StripLeftSplits(s[1..]);
      left := [s[0]] + rest;
    } else {
      left := "";
    }
  }

  lemma {:induction false} StripRightSplits(s: string) returns (right: string)
    ensures s == StripRight(s) + right
  {
    if s != "" && IsSpace(s[|s| - 1]) {
      var rest := StripRightSplits(s[..|s| - 1]);
      right := rest + [s[|s| - 1]];
    } else {
      right := "";
    }
  }

  /** The caller of the verifier, like the installer's, has already dropped trailing slashes. */
  lemma {:induction false} InstallerMeetsVerifier(h: Host, spec: HookEvent, base: string)
    requires Canonical(h, base)
    ensures Accepts(VerifierFor(h, spec, DropTrailing(base, '/')), MergerFor(h, spec, base))
  {
    var b := DropTrailing(base, '/');
    DesiredFields(spec, base);
    CurlIsSolid(b + spec.path, spec.discardsStdout);
    MintedIsVerified(h, DesiredHook(spec, base), spec, Aliases(h, base), b);
  }

  /** After an install, the event verifies exactly when no flat hook of ours comes first. */
  lemma {:induction false} InstallVerifiesIff(h: Host, spec: HookEvent, base: string, entries: seq<Json>)
    requires Canonical(h, base)
    ensures var v, m := VerifierFor(h, spec, DropTrailing(base, '/')), MergerFor(h, spec, base);
      v.Verifies(m.MergeEvent(entries)) <==> WillVerify(v, m, entries)
  {
    InstallerMeetsVerifier(h, spec, base);
    VerifierFacts(h, spec, DropTrailing(base, '/'));
    InstalledEventVerifiesIff(VerifierFor(h, spec, DropTrailing(base, '/')), MergerFor(h, spec, base), entries);
  }

  /** The command minted for this base reaches one of its aliases' endpoints, as a canonical base's does. */
  predicate ReachesAlias(h: Host, spec: HookEvent, base: string) {
    var aliases := Aliases(h, base);
    exists i | 0 <= i < |aliases| :: Contains(CurlCommand(DropTrailing(base, '/'), spec), aliases[i] + spec.path)
  }

  /** At any base the verifier knows the installed hook for ours, and accepts it exactly when it reaches an alias. */
  lemma {:induction false} InstalledHookAcceptedIff(h: Host, spec: HookEvent, base: string)
    ensures Accepts(VerifierFor(h, spec, DropTrailing(base, '/')), MergerFor(h, spec, base)) <==> ReachesAlias(h, spec, base)
    ensures !ReachesAlias(h, spec, base) ==>
              VerifierFor(h, spec, DropTrailing(base, '/')).verdict(DesiredHook(spec, base), Str("*")) == VMismatch(WrongBase)
  {
    DesiredFields(spec, base);
    MintedHasEndpoint(h, spec, DropTrailing(base, '/'));
    CommandHookVerdict(h, DesiredHook(spec, base), CurlCommand(DropTrailing(base, '/'), spec), spec.path, Aliases(h, base));
  }

  lemma {:induction false} MintedHasEndpoint(h: Host, spec: HookEvent, base: string)
    ensures ContainsBounded(CurlCommand(base, spec), spec.path, h.IsWord())
  {
    var prefix, suffix := CurlPrefix(spec.discardsStdout), CurlSuffix(spec.discardsStdout);
    assert CurlCommand(base, spec) == prefix + (base + spec.path) + suffix;
    assert prefix + (base + spec.path) + suffix == (prefix + base) + spec.path + suffix;
    ConcatContainsBounded(prefix + base, spec.path, suffix, h.IsWord());
  }

  /** A command hook under the wildcard is judged by its base alone. */
  lemma {:induction false} CommandHookVerdict(h: Host, hook: Dict, command: string, path: string, aliases: seq<string>)
    requires hook.Get("type") == Str("command") && hook.Get("command") == Str(command)
    requires ContainsBounded(command, path, h.IsWord())
    ensures HookIsOurs(h, hook, path)
    ensures VerdictForHook(hook, Str("*"), path, aliases) ==
            if exists i | 0 <= i < |aliases| :: Contains(command, aliases[i] + path) then VOk else VMismatch(WrongBase)
  {
  }

  lemma {:induction false} CanonicalReaches(h: Host, spec: HookEvent, base: string)
    requires Canonical(h, base)
    ensures ReachesAlias(h, spec, base)
  {
    InstallerMeetsVerifier(h, spec, base);
    InstalledHookAcceptedIff(h, spec, base);
  }

  /** Read off an event's list before installing at any base: will it verify afterwards? */
  ghost predicate VerifiesAfter(h: Host, spec: HookEvent, base: string, entries: seq<Json>) {
    var v, m := VerifierFor(h, spec, DropTrailing(base, '/')), MergerFor(h, spec, base);
    if ReachesAlias(h, spec, base) then WillVerify(v, m, entries) else exists i :: WillStayAt(v, m, entries, i)
  }

  /** After an install at any base, canonical or not, the event verifies exactly under that condition; an empty event, exactly when
      the command reaches an alias. */
  lemma {:induction false} AnyBaseVerifiesIff(h: Host, spec: HookEvent, base: string, entries: seq<Json>)
    ensures VerifierFor(h, spec, DropTrailing(base, '/')).Verifies(MergerFor(h, spec, base).MergeEvent(entries))
            <==> VerifiesAfter(h, spec, base, entries)
    ensures entries == [] ==> (VerifiesAfter(h, spec, base, entries) <==> ReachesAlias(h, spec, base))
  {
    var v, m := VerifierFor(h, spec, DropTrailing(base, '/')), MergerFor(h, spec, base);
    InstalledHookAcceptedIff(h, spec, base);
    VerifierFacts(h, spec, DropTrailing(base, '/'));
    if ReachesAlias(h, spec, base) {
      InstalledEventVerifiesIff(v, m, entries);
    } else {
      RefusedEventVerifiesIff(v, m, entries);
    }
  }

  /** On a file with no flat hook of ours, and whose up-to-date hooks are typed `command`, the verifier always ends at `ok`. */
  lemma {:induction false} OrdinaryFileVerifies(h: Host, spec: HookEvent, base: string, entries: seq<Json>)
    requires Canonical(h, base)
    requires var v, m := VerifierFor(h, spec, DropTrailing(base, '/')), MergerFor(h, spec, base);
      forall entry | entry in entries ::
        && !v.FlatOurs(entry)
        && (IsWrapper(entry) && IsWide(entry) ==> forall hook | hook in HooksOf(entry) ::
              m.Is(hook, Current) ==> hook.dict.Get("type") == Str("command"))
    ensures VerifierFor(h, spec, DropTrailing(base, '/')).Verifies(MergerFor(h, spec, base).MergeEvent(entries))
  {
    var v, m := VerifierFor(h, spec, DropTrailing(base, '/')), MergerFor(h, spec, base);
    InstallVerifiesIff(h, spec, base, entries);
    if entry :| entry in entries && m.CoveredBy(entry) {
      var i :| 0 <= i < |entries| && entries[i] == entry;
      var hook :| hook in HooksOf(entry) && m.Ours(hook);
      if m.Is(hook, Current) {
        CurrentIsVerified(h, hook.dict, spec, base);
        assert v.OursIn(entry, hook);
        assert v.HoldsOk(entry);
      } else {
        assert m.HoldsStale(entry);
      }
      assert WillVerifyAt(v, m, entries, i);
    }
  }

  lemma {:induction false} CurrentIsVerified(h: Host, hook: Dict, spec: HookEvent, base: string)
    requires Grade(h, hook, spec, base) == Current
    requires hook.Get("type") == Str("command")
    ensures HookIsOurs(h, hook, spec.path)
    ensures VerdictForHook(hook, Str("*"), spec.path, Aliases(h, base)) == VOk
  {
    var aliases := Aliases(h, base);
    var i :| 0 <= i < |aliases| && Strip(hook.Get("command").s) == Strip(CurlCommand(aliases[i], spec));
    CurlIsSolid(aliases[i] + spec.path, spec.discardsStdout);
    MintedIsVerified(h, hook, spec, aliases, aliases[i]);
  }

  /** Both exceptions are real: a flat hook placed first is reported instead of the one installed after it. */
  lemma {:induction false} FlatHookHidesInstall(h: Host, spec: HookEvent, base: string)
    requires Canonical(h, base)
    ensures var flat := Obj(Dict(["url"], map["url" := Str(spec.path)]));
      !VerifierFor(h, spec, DropTrailing(base, '/')).Verifies(MergerFor(h, spec, base).MergeEvent([flat]))
  {
    var dict := Dict(["url"], map["url" := Str(spec.path)]);
    var v, m := VerifierFor(h, spec, DropTrailing(base, '/')), MergerFor(h, spec, base);
    assert |"url"| != |"hooks"| && |"url"| != |"command"|;
    ConcatContainsBounded("", spec.path, "", h.IsWord());
    assert "" + spec.path + "" == spec.path;
    assert v.FlatOurs(Obj(dict));
    InstallVerifiesIff(h, spec, base, [Obj(dict)]);
    assert [Obj(dict)][0] in [Obj(dict)];
  }

  function UntypedHook(spec: HookEvent, base: string): Dict {
    Dict(["command"], map["command" := Str(CurlCommand(DropTrailing(base, '/'), spec))])
  }

  lemma {:induction false} UntypedIsCurrent(h: Host, spec: HookEvent, base: string)
    requires Canonical(h, base)
    ensures Grade(h, UntypedHook(spec, base), spec, base) == Current
    ensures UntypedHook(spec, base).Get("type") == Null
  {
    var b := DropTrailing(base, '/');
    assert |"type"| != |"command"|;
    CurlIsSolid(b + spec.path, spec.discardsStdout);
    CurlCarriesMarker(b + spec.path, spec.discardsStdout);
    CurrentFormIff(b, spec, Aliases(h, base));
    AliasIsTargeted(h, spec, b, Aliases(h, base));
  }

  /** And an up-to-date hook without `"type": "command"` counts as installed yet never verifies. */
  lemma {:induction false} UntypedHookBlocksInstall(h: Host, spec: HookEvent, base: string)
    requires Canonical(h, base)
    ensures !VerifierFor(h, spec, DropTrailing(base, '/')).Verifies(MergerFor(h, spec, base).MergeEvent([Wrap(UntypedHook(spec, base))]))
  {
    var hook, entry := UntypedHook(spec, base), Wrap(UntypedHook(spec, base));
    var v, m := VerifierFor(h, spec, DropTrailing(base, '/')), MergerFor(h, spec, base);
    UntypedIsCurrent(h, spec, base);
    WrapFacts(m.(desired := hook));
    CoveredButUnaccepted(v, m, hook);
    InstallVerifiesIff(h, spec, base, [entry]);
  }

  lemma {:induction false} CoveredButUnaccepted(v: Verifier, m: Merger, hook: Dict)
    requires m.Is(Obj(hook), Current) && v.verdict(hook, Str("*")) != VOk
    requires HooksOf(Wrap(hook)) == [Obj(hook)] && IsWide(Wrap(hook)) && IsWrapper(Wrap(hook))
    requires Wrap(hook).dict.Get("matcher") == Str("*")
    ensures !WillVerify(v, m, [Wrap(hook)])
  {
    var entry := Wrap(hook);
    assert Obj(hook) in HooksOf(entry) && m.Ours(Obj(hook));
    assert m.CoveredBy(entry) && entry in [entry];
  }

  // The whole file, graded against the core events only.

  datatype FileStatus = FOk | FPartial | FAbsent

  ghost predicate EventVerifies(h: Host, base: string, block: Dict, spec: HookEvent) {
    block.Get(spec.event).Arr? && VerifierFor(h, spec, base).Verifies(block.Get(spec.event).items)
  }

  ghost predicate FileVerifies(h: Host, base: string, block: Dict) {
    forall spec | spec in HOOK_EVENTS && spec.tier == Core :: EventVerifies(h, base, block, spec)
  }

  /** `core_events`. */
  function CoreEvents(specs: seq<HookEvent>): (core: seq<HookEvent>)
    ensures forall spec :: spec in core <==> spec in specs && spec.tier == Core
  {
    if specs == [] then [] else (if specs[0].tier == Core then [specs[0]] else []) + CoreEvents(specs[1..])
  }

  /** Each event gets the verdict on its own list, in order. */
  ghost predicate VerdictsOf(h: Host, base: string, block: Dict, core: seq<HookEvent>, verdicts: seq<Verdict>) {
    && |verdicts| == |core|
    && forall i | 0 <= i < |core| :: Judges(VerifierFor(h, core[i], base), block.Get(core[i].event), verdicts[i])
  }

  method ClassifyBlock(h: Host, core: seq<HookEvent>, block: Dict, base: string) returns (verdicts: seq<Verdict>)
    ensures VerdictsOf(h, base, block, core, verdicts)
  {
    verdicts := [];
    for i := 0 to |core|
      invariant VerdictsOf(h, base, block, core[..i], verdicts)
    {
      VerifierFacts(h, core[i], base);
      var verdict := ClassifyEvent(VerifierFor(h, core[i], base), block.Get(core[i].event));
      verdicts := verdicts + [verdict];
    }
    assert core[..|core|] == core;
  }

  lemma {:induction false} AllOkIff(h: Host, base: string, block: Dict, core: seq<HookEvent>, verdicts: seq<Verdict>)
    requires VerdictsOf(h, base, block, core, verdicts)
    ensures (forall v | v in verdicts :: v == VOk) <==> forall spec | spec in core :: EventVerifies(h, base, block, spec)
  {
    forall i | 0 <= i < |core|
      ensures verdicts[i] == VOk <==> EventVerifies(h, base, block, core[i])
    {
      assert Judges(VerifierFor(h, core[i], base), block.Get(core[i].event), verdicts[i]);
    }
    if forall v | v in verdicts :: v == VOk {
      forall spec | spec in core
        ensures EventVerifies(h, base, block, spec)
      {
        var i :| 0 <= i < |core| && core[i] == spec;
        assert verdicts[i] in verdicts;
      }
    } else {
      var i :| 0 <= i < |verdicts| && verdicts[i] != VOk;
      assert core[i] in core;
    }
  }

  /** `classify_settings_hooks`. */
  method ClassifySettings(h: Host, parsed: Json, base: string) returns (status: FileStatus, verdicts: seq<Verdict>)
    ensures !parsed.Obj? || !parsed.dict.Get("hooks").Obj? ==>
              status == FAbsent && verdicts == seq(|CoreEvents(HOOK_EVENTS)|, _ => VMissing)
    ensures parsed.Obj? && parsed.dict.Get("hooks").Obj? ==>
              && VerdictsOf(h, base, parsed.dict.Get("hooks").dict, CoreEvents(HOOK_EVENTS), verdicts)
              && (status == FOk <==> FileVerifies(h, base, parsed.dict.Get("hooks").dict))
              && (status == FAbsent <==> forall v | v in verdicts :: v == VMissing)
  {
    var core := CoreEvents(HOOK_EVENTS);
    if !parsed.Obj? || !parsed.dict.Get("hooks").Obj? {
      return FAbsent, seq(|core|, _ => VMissing);
    }
    verdicts := ClassifyBlock(h, core, parsed.dict.Get("hooks").dict, base);
    AllOkIff(h, base, parsed.dict.Get("hooks").dict, core, verdicts);
    FirstIsCore();
    assert HOOK_EVENTS[0] in core;
    assert verdicts[0] in verdicts;
    if forall v | v in verdicts :: v == VOk {
      status := FOk;
    } else if forall v | v in verdicts :: v == VMissing {
      status := FAbsent;
    } else {
      status := FPartial;
    }
  }

  lemma {:induction false} FirstIsCore()
    ensures |HOOK_EVENTS| > 0 && HOOK_EVENTS[0].tier == Core
  {
  }

  /** After a successful install at any base the verifier passes the file exactly when each core event's own list allowed it. */
  lemma {:induction false} AnyBaseFileVerifiesIff(h: Host, base: string, body: Dict)
    requires Plan(h, base, Obj(body)).Merged?
    ensures FileVerifies(h, DropTrailing(base, '/'), Settings.BlockOf(Plan(h, base, Obj(body)).body)) <==>
      forall spec | spec in HOOK_EVENTS && spec.tier == Core ::
        && Settings.IsMergeable(Settings.BlockOf(body).Get(spec.event))
        && VerifiesAfter(h, spec, base, Settings.EntriesOf(Settings.BlockOf(body).Get(spec.event)))
  {
    var ms := Mergers(h, base);
    MergersFacts(h, base);
    Settings.MergedEvents(ms, body);
    var after := Settings.BlockOf(Plan(h, base, Obj(body)).body);
    forall spec | spec in HOOK_EVENTS
      ensures Settings.IsMergeable(Settings.BlockOf(body).Get(spec.event))
      ensures EventVerifies(h, DropTrailing(base, '/'), after, spec) <==>
              VerifiesAfter(h, spec, base, Settings.EntriesOf(Settings.BlockOf(body).Get(spec.event)))
    {
      var i :| 0 <= i < |HOOK_EVENTS| && HOOK_EVENTS[i] == spec;
      assert ms[i] == MergerFor(h, spec, base);
      AnyBaseVerifiesIff(h, spec, base, Settings.EntriesOf(Settings.BlockOf(body).Get(spec.event)));
    }
  }

  /** After a successful install the verifier passes the file exactly when each core event's own list allowed it. */
  lemma {:induction false} InstalledFileVerifiesIff(h: Host, base: string, body: Dict)
    requires Canonical(h, base)
    requires Plan(h, base, Obj(body)).Merged?
    ensures var b := DropTrailing(base, '/');
      FileVerifies(h, b, Settings.BlockOf(Plan(h, base, Obj(body)).body)) <==>
      forall spec | spec in HOOK_EVENTS && spec.tier == Core ::
        && Settings.IsMergeable(Settings.BlockOf(body).Get(spec.event))
        && WillVerify(VerifierFor(h, spec, b), MergerFor(h, spec, base), Settings.EntriesOf(Settings.BlockOf(body).Get(spec.event)))
  {
    AnyBaseFileVerifiesIff(h, base, body);
    forall spec | spec in HOOK_EVENTS
      ensures ReachesAlias(h, spec, base)
    {
      CanonicalReaches(h, spec, base);
    }
  }

  /** The hook an early release left behind, with a url and no command: under `"*"` the install turns it into the one minted now,
      where it stands, and adds no second one. */
  lemma {:induction false} LegacyUrlIsRepaired(h: Host, spec: HookEvent, base: string, entries: seq<Json>, i: nat, j: nat,
          hook: Dict, url: string, alias: string)
    requires i < |entries| && IsWrapper(entries[i]) && IsWide(entries[i])
    requires j < |HooksOf(entries[i])| && HooksOf(entries[i])[j] == Obj(hook)
    requires !hook.Get("command").Str? && hook.Get("url") == Str(url) && Strip(url) == alias + spec.path && alias in Aliases(h, base)
    ensures var merged := MergerFor(h, spec, base).MergeEvent(entries);
      && |merged| == |entries| && IsWrapper(merged[i])
      && j < |HooksOf(merged[i])| && HooksOf(merged[i])[j] == Obj(DesiredHook(spec, base))
  {
    UrlHookIsStaleIff(h, hook, spec, base, url);
    StaleIsRewritten(MergerFor(h, spec, base), entries, i, j);
  }

  /** What each verdict means: the type first, then the text, then the base, then the matcher. */
  lemma {:induction false} VerdictIff(hook: Dict, matcher: Json, path: string, aliases: seq<string>)
    ensures var typed, text := hook.Get("type") == Str("command"), hook.Get("command").Str?;
      var reaches := text && exists alias | alias in aliases :: Contains(hook.Get("command").s, alias + path);
      var verdict := VerdictForHook(hook, matcher, path, aliases);
      && (verdict == VMismatch(LegacyType) <==> !typed)
      && (verdict == VMismatch(CommandNotText) <==> typed && !text)
      && (verdict == VMismatch(WrongBase) <==> typed && text && !reaches)
      && (verdict == VMismatch(WrongMatcher) <==> typed && reaches && matcher != Str("*"))
      && (verdict == VOk <==> typed && reaches && matcher == Str("*"))
  {
    if hook.Get("command").Str? {
      var command := hook.Get("command").s;
      assert (exists alias | alias in aliases :: Contains(command, alias + path)) <==>
             exists i | 0 <= i < |aliases| :: Contains(command, aliases[i] + path);
    }
  }
}
