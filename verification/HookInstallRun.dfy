/** One install of the hook block, from reading a settings.json to the last system call. */
module HookInstallRun {
  import opened Text
  import opened Json
  import opened HookAuthorship
  import opened HookInstaller
  import opened SafeWrite

  /** Reading and rendering JSON text; reading fails on what `_read_settings` refuses. */
  datatype Codec = Codec(parse: Bytes -> Option<Json>, render: Dict -> Bytes)

  datatype Status = SRefused | SPlanned | SUnchanged | SApplied

  /** What an install of this file is bound to do, decided from its bytes alone. */
  datatype Intent = Refuse | Keep | Write(bytes: Bytes)

  /** What the file holds, as JSON: a missing file is an empty object. */
  function ParsedFile(codec: Codec, content: Option<Bytes>): Option<Json> {
    match content case None => Some(Obj(EMPTY)) case Some(bytes) => codec.parse(bytes)
  }

  function IntentFor(codec: Codec, h: Host, base: string, content: Option<Bytes>): Intent {
    match ParsedFile(codec, content)
    case None => Refuse
    case Some(body) =>
      match Plan(h, base, body)
      case Refused(_, _) => Refuse
      case Merged(merged, plan) => if Settings.ChangesFile(plan) then Write(codec.render(merged)) else Keep
  }

  /** A crash may find the old file, or the new one; the new one over an old one only beside a backup of it, under a name that was free. */
  ghost predicate CrashSafe(was: Files, now: Files, target: string, bytes: Bytes) {
    && KeepsAllBut(was, now, target)
    && (|| Lookup(now, target) == Lookup(was, target)
        || (&& Lookup(now, target) == Some(bytes)
            && (target in was ==> exists b :: b != target && b !in was && Lookup(now, b) == Some(was[target]))))
  }

  /** `_install_one`, past the checks on the path. */
  method InstallOne(disk: Disk, target: string, codec: Codec, h: Host, base: string, stamp: string, apply: bool)
    returns (status: Status, backup: Option<string>)
    requires disk.Valid()
    modifies disk
    ensures disk.Valid() && old(disk.history) <= disk.history
    ensures var intent := IntentFor(codec, h, base, Lookup(old(disk.files), target));
      if intent.Write? && apply then
        && (forall k | |old(disk.history)| <= k < |disk.history| :: CrashSafe(old(disk.files), disk.history[k], target, intent.bytes))
        && (status == SApplied || status == SRefused)
        && (status == SApplied ==>
              && Lookup(disk.files, target) == Some(intent.bytes)
              && (backup.Some? <==> target in old(disk.files))
              && disk.files == (if backup.None? then old(disk.files) else old(disk.files)[backup.value := old(disk.files)[target]])[target := intent.bytes])
        && (status == SRefused ==> Lookup(disk.files, target) == Lookup(old(disk.files), target))
      else
        && disk.history == old(disk.history) && backup == None
        && status == match intent case Refuse => SRefused case Keep => SUnchanged case Write(_) => SPlanned
  {
    backup := None;
    var previous := Lookup(disk.files, target);
    var intent := Decide(codec, h, base, previous);
    match intent {
      case Refuse => status := SRefused;
      case Keep => status := SUnchanged;
      case Write(bytes) =>
        if !apply {
          return SPlanned, None;
        }
        status, backup := WriteBoth(disk, target, previous, bytes, stamp);
    }
  }

  /** Reading, planning and rendering. */
  method Decide(codec: Codec, h: Host, base: string, previous: Option<Bytes>) returns (intent: Intent)
    ensures intent == IntentFor(codec, h, base, previous)
  {
    var parsed := ParsedFile(codec, previous);
    if parsed.None? || !parsed.value.Obj? {
      return Refuse;
    }
    MergersFacts(h, base);
    var planner := new Settings.SettingsBody(parsed.value.dict);
    var outcome := planner.Plan(Mergers(h, base));
    if outcome.Refused? {
      return Refuse;
    }
    if !Settings.ChangesFile(outcome.plan) {
      return Keep;
    }
    return Write(codec.render(outcome.body));
  }

  /** The backup, then the file. */
  method WriteBoth(disk: Disk, target: string, previous: Option<Bytes>, rendered: Bytes, stamp: string)
    returns (status: Status, backup: Option<string>)
    requires disk.Valid() && previous == Lookup(disk.files, target)
    modifies disk
    ensures disk.Valid() && old(disk.history) <= disk.history
    ensures forall k | |old(disk.history)| <= k < |disk.history| :: CrashSafe(old(disk.files), disk.history[k], target, rendered)
    ensures status == SApplied || status == SRefused
    ensures status == SApplied ==>
              && Lookup(disk.files, target) == Some(rendered)
              && (backup.Some? <==> target in old(disk.files))
              && disk.files == (if backup.None? then old(disk.files) else old(disk.files)[backup.value := old(disk.files)[target]])[target := rendered]
    ensures status == SRefused ==> Lookup(disk.files, target) == Lookup(old(disk.files), target)
  {
    ghost var was := disk.files;
    backup := None;
    if previous.Some? {
      var saved, candidate := disk.WriteBackup(target, previous.value, stamp);
      if !saved {
        return SRefused, None;
      }
      backup := Some(candidate);
    }
    ghost var between, reached := disk.files, |disk.history|;
    var written := disk.AtomicWrite(target, rendered);
    status := if written then SApplied else SRefused;
    forall k | |old(disk.history)| <= k < |disk.history|
      ensures CrashSafe(was, disk.history[k], target, rendered)
    {
      if k >= reached {
        assert OldOrNew(between, disk.history[k], target, rendered);
        if backup.Some? {
          assert Lookup(disk.history[k], backup.value) == Some(was[target]);
        }
      }
    }
  }

  /** The one body this install would write, if any, is read back as it was rendered. */
  ghost predicate ReadsBack(codec: Codec, h: Host, base: string, content: Option<Bytes>) {
    var parsed := ParsedFile(codec, content);
    parsed.Some? && Plan(h, base, parsed.value).Merged? ==>
      var merged := Plan(h, base, parsed.value).body;
      codec.parse(codec.render(merged)) == Some(Obj(merged))
  }

  /** Planning over a planned body plans no change. */
  lemma {:induction false} PlanIsKept(h: Host, base: string, body: Json)
    requires Canonical(h, base) && Plan(h, base, body).Merged?
    ensures var again := Plan(h, base, Obj(Plan(h, base, body).body));
      again.Merged? && !Settings.ChangesFile(again.plan)
  {
    InstallSettlesIff(h, base);
    Settings.RefusedIff(Mergers(h, base), body);
    assert Settles(h, base, body.dict);
  }

  /** Whatever an install would write, an install of that file would keep. */
  lemma {:induction false} WrittenFileIsKept(codec: Codec, h: Host, base: string, content: Option<Bytes>)
    requires Canonical(h, base) && ReadsBack(codec, h, base, content)
    ensures var intent := IntentFor(codec, h, base, content);
      intent.Write? ==> IntentFor(codec, h, base, Some(intent.bytes)) == Keep
  {
    var intent := IntentFor(codec, h, base, content);
    if intent.Write? {
      PlanIsKept(h, base, ParsedFile(codec, content).value);
    }
  }

  /** A second install never reaches the disk, so it never takes a second backup. */
  method InstallTwice(disk: Disk, target: string, codec: Codec, h: Host, base: string, stamp: string, stamp': string)
    returns (first: Status, second: Status)
    requires disk.Valid() && Canonical(h, base) && ReadsBack(codec, h, base, Lookup(disk.files, target))
    modifies disk
    ensures first == SApplied ==> second == SUnchanged
    ensures first == SUnchanged ==> second == SUnchanged && disk.history == old(disk.history)
  {
    ghost var content := Lookup(disk.files, target);
    ghost var intent := IntentFor(codec, h, base, content);
    WrittenFileIsKept(codec, h, base, content);
    var backup;
    first, backup := InstallOne(disk, target, codec, h, base, stamp, true);
    ghost var intent' := IntentFor(codec, h, base, Lookup(disk.files, target));
    assert first == SApplied ==> intent.Write? && intent' == Keep;
    assert first == SUnchanged ==> intent' == Keep && disk.history == old(disk.history);
    second, backup := InstallOne(disk, target, codec, h, base, stamp', true);
  }

  /** An object whose hooks, and each registered event in them, have the shape a merge can work on. */
  ghost predicate IsShaped(h: Host, base: string, parsed: Json) {
    && parsed.Obj? && (parsed.dict.Get("hooks").Null? || parsed.dict.Get("hooks").Obj?)
    && forall m | m in Mergers(h, base) :: Settings.IsMergeable(Settings.BlockOf(parsed.dict).Get(m.event))
  }

  ghost predicate NeedsInstall(h: Host, base: string, body: Dict) {
    exists m | m in Mergers(h, base) :: Settings.NeedsWork(m, Settings.BlockOf(body).Get(m.event))
  }

  lemma {:induction false} MergedIffShaped(h: Host, base: string, parsed: Json)
    ensures Plan(h, base, parsed).Merged? <==> IsShaped(h, base, parsed)
    ensures Plan(h, base, parsed).Merged? ==>
              (Settings.ChangesFile(Plan(h, base, parsed).plan) <==> NeedsInstall(h, base, parsed.dict))
  {
    var ms := Mergers(h, base);
    Settings.RefusedIff(ms, parsed);
    if Plan(h, base, parsed).Merged? {
      Settings.ChangesFileIff(ms, parsed.dict);
    }
  }

  /** What an install is bound to do: refuse what is no JSON object of the right shape; write the merged body when some event lacks an
      up-to-date hook of ours under `"*"`; and else keep the file. */
  lemma {:induction false} IntentMeans(codec: Codec, h: Host, base: string, content: Option<Bytes>)
    ensures var parsed, intent := ParsedFile(codec, content), IntentFor(codec, h, base, content);
      && (intent == Refuse <==> parsed.None? || !IsShaped(h, base, parsed.value))
      && (intent.Write? <==> parsed.Some? && IsShaped(h, base, parsed.value) && NeedsInstall(h, base, parsed.value.dict))
      && (intent.Write? ==> Plan(h, base, parsed.value).Merged? && intent.bytes == codec.render(Plan(h, base, parsed.value).body))
  {
    var parsed := ParsedFile(codec, content);
    if parsed.Some? {
      MergedIffShaped(h, base, parsed.value);
    }
  }

  /** A missing file is written. */
  lemma {:induction false} MissingFileIsWritten(codec: Codec, h: Host, base: string)
    ensures IntentFor(codec, h, base, None).Write?
  {
    IntentMeans(codec, h, base, None);
    MergersFacts(h, base);
    var m := Mergers(h, base)[0];
    assert m in Mergers(h, base) && Settings.BlockOf(EMPTY).Get(m.event) == Null;
    assert Settings.NeedsWork(m, Null);
  }
}
