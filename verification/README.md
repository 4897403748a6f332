# Codenest sidecar: verified model

Codenest's Python sidecar keeps a SQLite database and a few files of the user's in step with what Claude Code does. This
project models the services in it that make promises, and proves the promises. Each SQL table is a sequence, set or map of
rows; each statement has its exact effect; JSON is an inductive datatype, strings are sequences of characters, and money is
`real`. What loops and updates in the source is a method with a loop here, proved equal to a specification function; the laws
are lemmas about those functions. Automatic induction is switched off on every lemma, so every induction is written out.

Check it with `dafny verify dfyconfig.toml`.

| Part | Files |
|---|---|
| Hook installer: merging 22 hooks into a settings file, authorship, the independent verifier, the write protocol | `HookRegistry`, `HookAuthorship`, `HookMerge`, `HookMergeLaws`, `SettingsMerge`, `HookVerifier`, `HookInstaller`, `SafeWrite`, `HookInstallRun` |
| Workspace: aliases, the name allocator, the directory swap | `AliasSeam`, `NameAllocator`, `NameLaws`, `NameOrder`, `NameOutcome`, `NameTidy`, `WorkspaceSwap` |
| Attention queue: statements, laws of one refresh, whole runs, dedup keys and hook items | `AttentionQueue`, `AttentionLaws`, `AttentionRuns`, `AttentionKeys` |
| Lanes, Stop accounting, cost attribution | `LaneReconciler`, `Attribution`, `StopAccounting` |
| OTLP metrics receiver: points, the walk, its books, series folding, storing | `OtlpPoints`, `OtlpParse`, `OtlpAccounting`, `OtlpPlaces`, `OtlpSeries`, `OtlpIngest` |
| Directory resolver | `PathPrefix`, `ProjectMatch`, `CwdResolver` |
| Retention | `Timestamps`, `EventRetention` |
| Budgets | `Calendar`, `BudgetPeriods`, `BudgetAlerts` |
| Shared | `Text`, `Json` |

Several algorithms are proved over abstract parts and then instantiated: a `Merger` (what authorship says of a hook), a
`Verifier`, a `Naming` (the spellings a row may take), a `Judgement` of data points, a `Transition` of the accounting state.
The file system, clocks and decoders are parameters: `Fs`, `Codec`, `Host`, `Runtime`, `Unicode`, `Reading`.

## Where the code and its documentation disagree

The model follows the code.

- `_equivalent_base_urls` (`app/services/hooks_service.py:449-467`) is described as always listing the given base first. It
  drops a path and lower-cases the host, so such a base is not in its own list, and then some file never settles.
  `HookInstaller.InstallSettlesIff` gives the exact condition, `PathedBaseIsNotCanonical` an instance, and
  `AnyBaseVerifiesIff` what the verifier answers after an install at any base.
- The entry the merge appends is said to make its event verify (`app/services/hooks_service.py:954-960`). A flat hook of ours
  that stands first, or a current hook without its type, prevents it: `HookInstaller.InstallVerifiesIff`, with both instances.
- The allocator's docstring (`app/services/command_center_service.py:176-181`) has only a row without a declared name go
  unnamed. An aliasable row can: `NameOrder.OrdinaryRowsLeaveOneUnnamed` and `NameLaws.AliasableRowCanGoUnnamed` are two families
  of such rows, and `NameOrder.UnnamedHasRivals` says, of the rows alone, what there must be for it to happen.
- Counting the claimants first is said to make the outcome independent of import order
  (`app/services/command_center_service.py:219-222`). It does so exactly when no two rows want the same name or filename first,
  where what a row wants first is told from the org agents and the counts: `NameOutcome.OutcomeIgnoresOrderIff`, for all rows,
  with `FirstChoiceIs` spelling the wants out and `NameTidy.TidyOrderMattersIff` the condition in plain words. The plainest failure
  is two namesakes in projects of one slug, which swap names with the order: `NamesakesSwapNames`. Being contested can depend on
  the order as well: `NameOrder.ContestedIff`, `OrderMatters`.
- Two different prompts are said never to share a fingerprint (`app/services/attention_service.py:885-899`). Ids are cut to 64
  characters, and session and fingerprint are joined by a colon either may hold: `AttentionKeys.PromptKeysMeetIff` and
  `ToolPromptsMeetIff` say when keys meet, `ColonMovesTheSeam` is an instance.
- `ingest` (`app/services/otlp_receiver_service.py:984-989`) says point-level problems never raise. An integer beyond every float,
  a string without an encoding, and a list or object as a metric's temporality do, and drop the whole export:
  `OtlpPoints.JudgeRaisesIff` for one point, `OtlpAccounting.RaisesIff` for the walk, `OtlpIngest.Receiver.Ingest` for the export,
  with `OtlpPoints.OversizedPointRaises` an instance.
- `resolve_retention_days` (`app/services/event_retention_service.py:304-306`) says a corrupt setting must not crash a background
  tick. A stored infinite number does: `EventRetention.ResolveRetentionDays` says exactly when.
- `match_project` (`app/services/cwd_resolver_service.py:464-468`) says ordering by stored length makes the first hit the most
  specific. Trailing slashes in a stored root can break that: `ProjectMatch.MostSpecificIff`, with an instance.

## Model

| member | source | states |
|---|---|---|
| `HookRegistry.RegistryIsDistinct` | app/services/hooks_service.py:185-229 | The registry holds 22 events under 22 different names, so indexing it by name loses none |
| `HookRegistry.OnlyPreToolUseAnswers` | app/services/hooks_service.py:185-229 | Only the hook before a tool runs keeps its standard output |
| `HookRegistry.OutputIsDiscardedIff` | app/services/hooks_service.py:282-325 | The command of that hook keeps standard output and fails on an error answer, every other discards it and does not |
| `HookAuthorship.CurrentFormIff` | app/services/hooks_service.py:867-874 | A minted command is in the set of current forms for some aliases exactly when its base URL is one of those aliases |
| `HookAuthorship.AliasIsTargeted` | app/services/hooks_service.py:834-872 | A minted command targets its own endpoint, trailing boundary included, whenever its base is among the aliases |
| `HookAuthorship.MintedIsCurrentIff` | app/services/hooks_service.py:840-890 | A freshly minted hook is graded current exactly when the base URL is among its own aliases |
| `HookAuthorship.LegacyIsStale` | app/services/hooks_service.py:818-880 | Every command of either past generation, at any alias of the base, is recognised as ours and due for repair |
| `HookAuthorship.UrlHookIsStaleIff` | app/services/hooks_service.py:881-890 | A hook with a url and no command is ours, and due for repair, exactly when its trimmed url is one of our endpoints at an alias; it is never up to date |
| `HookAuthorship.OursNeedsTwoFacts` | app/services/hooks_service.py:838-880 | A command is claimed exactly when it reaches our endpoint at an alias and carries our marker or is, to the letter, one a past release minted |
| `HookAuthorship.CurrentIffMinted` | app/services/hooks_service.py:867-879 | A command is up to date exactly when it is, trimmed, what this release mints at one of the aliases |
| `HookAuthorship.AliasesAre` | app/services/hooks_service.py:449-467 | A loopback base stands for the three loopback spellings at its own scheme and port, any other base only for itself |
| `HookMerge.EventList.PlanEvent` | app/services/hooks_service.py:914-984 | The in-place loop leaves the specified list and reports the specified counts |
| `HookMerge.PlanEntry` | app/services/hooks_service.py:932-965 | One entry is merged and counted as specified; a flat hook of ours is counted and left |
| `HookMerge.PlanWrapped` | app/services/hooks_service.py:945-965 | The inner loop rewrites and counts the hooks of one entry as specified |
| `HookMerge.PlanHook` | app/services/hooks_service.py:946-965 | One hook is counted and left, or rewritten exactly when it is stale under the wildcard |
| `HookMergeLaws.EventIsPreserved` | app/services/hooks_service.py:914-984 | Every entry keeps its index; inside it only stale hooks under the wildcard change; one entry is appended exactly when none of ours was covered |
| `HookMergeLaws.EventFixedPoint` | app/services/hooks_service.py:914-984 | Merging the merged list changes nothing and reports ok, when the minted hook is graded current |
| `HookMergeLaws.UnsoundNeverSettles` | app/services/hooks_service.py:914-984 | When the minted hook is not graded current, a merge of the empty list never reports ok afterwards |
| `HookMergeLaws.OkMeansUntouched` | app/services/hooks_service.py:967-984 | An event reported ok had its list left exactly as it was |
| `HookMergeLaws.StaleIsRewritten` | app/services/hooks_service.py:945-965 | Under the wildcard a stale hook is rewritten in its place, nothing is appended, and the action is a repair |
| `HookMergeLaws.TallyCounts` | app/services/hooks_service.py:932-965 | The reported numbers are those of foreign, narrow, rewritten and unwrapped hooks, each counted once |
| `HookMergeLaws.ActionMeans` | app/services/hooks_service.py:967-984 | The action is a repair when one of ours is rewritten, else an addition when none is under the wildcard, else nothing |
| `SettingsMerge.SettingsBody.Plan` | app/services/hooks_service.py:999-1049 | The in-place merge over all events gives the specified outcome: refused whole, or the merged body and its plan |
| `SettingsMerge.RefusedIff` | app/services/hooks_service.py:999-1049 | A body is refused exactly when it, its hooks block, or the value under some registered event has the wrong shape |
| `SettingsMerge.FixedPoint` | app/services/hooks_service.py:999-1053 | Planning the merged body again is accepted, returns that very body and reports ok for every event |
| `SettingsMerge.ForeignKeysKept` | app/services/hooks_service.py:999-1049 | Other top-level keys, their order, and events outside the registry keep their values |
| `SettingsMerge.EventsPreserved` | app/services/hooks_service.py:914-1049 | Under every registered event the old entries keep their places and foreign hooks keep theirs inside them |
| `SettingsMerge.ChangesIff` | app/services/hooks_service.py:1052-1053 | The planned body equals the input exactly when the plan is said not to change the file |
| `SettingsMerge.UnchangedPlanKeepsBody` | app/services/hooks_service.py:1052-1053 | A plan that changes nothing returns the very body it was given, whatever the hooks |
| `SettingsMerge.ConflictsAre` | app/services/hooks_service.py:1021-1049 | A body is refused with exactly the registered events whose value is neither a list nor missing |
| `SettingsMerge.ChangesFileIff` | app/services/hooks_service.py:1050-1053 | A plan changes the file exactly when some event has no hook of ours under the wildcard, or a stale one |
| `HookVerifier.ClassifyWrapped` | app/services/hooks_service.py:526-562 | The scan of one entry answers ok exactly when it holds an accepted hook, and otherwise the verdict on the first hook of ours in it |
| `HookVerifier.ClassifyEvent` | app/services/hooks_service.py:526-562 | An event is ok or malformed by which hook comes first, else carries the verdict on the first wrapped hook of ours, else is missing |
| `HookVerifier.InstalledEventVerifiesIff` | app/services/hooks_service.py:526-562 | For any merger and verifier that accept the same hook: after the merge the event verifies exactly under a condition read off the old list |
| `HookVerifier.RefusedEventVerifiesIff` | app/services/hooks_service.py:526-569 | When the verifier refuses the merger's own hook, the merged event verifies exactly when an accepted hook was there that is not rewritten, before any flat one |
| `HookInstaller.SoundIffCanonical` | app/services/hooks_service.py:840-890 | The installer mints what its own authorship test calls current exactly for base URLs among their own aliases |
| `HookInstaller.InstallSettlesIff` | app/services/hooks_service.py:449-467 | One install reaches a fixed point on every file exactly when the base URL is among its own aliases |
| `HookInstaller.PathedBaseIsNotCanonical` | app/services/hooks_service.py:449-467 | A base URL with a path is not among its own aliases, so some file never settles |
| `HookInstaller.InstallVerifiesIff` | app/services/hooks_service.py:485-562 | After an install the verifier accepts the event exactly when no flat hook of ours comes first and an accepted, stale or appended hook is there |
| `HookInstaller.OrdinaryFileVerifies` | app/services/hooks_service.py:485-562 | Without flat hooks of ours, and with up-to-date hooks typed command, the verifier always ends at ok |
| `HookInstaller.FlatHookHidesInstall` | app/services/hooks_service.py:540-562 | A flat hook placed first is reported instead of the one installed after it |
| `HookInstaller.UntypedHookBlocksInstall` | app/services/hooks_service.py:495-523 | An up-to-date hook without its type counts as installed yet never verifies |
| `HookInstaller.LegacyUrlIsRepaired` | app/services/hooks_service.py:881-965 | A legacy hook with our url under the wildcard becomes the hook minted now, where it stands, and no second one is added |
| `HookInstaller.VerdictIff` | app/services/hooks_service.py:498-523 | Each verdict has exactly its cause: the type, then the text, then the base, then the matcher |
| `HookInstaller.ClassifyBlock` | app/services/hooks_service.py:572-617 | Each core event gets the verdict on its own list, in the order given |
| `HookInstaller.ClassifySettings` | app/services/hooks_service.py:572-617 | The verdicts are those of the core events in registry order; the file is ok exactly when every core event verifies, absent exactly when all are missing, and all are missing without a hooks block |
| `HookInstaller.InstalledFileVerifiesIff` | app/services/hooks_service.py:572-617 | After a successful merge the whole file verifies exactly when every core event meets the condition on the old file |
| `HookInstaller.InstalledHookAcceptedIff` | app/services/hooks_service.py:483-523 | At any base the verifier accepts the installed hook exactly when its command reaches the endpoint at an alias, and else reports the wrong base |
| `HookInstaller.AnyBaseVerifiesIff` | app/services/hooks_service.py:526-569 | After an install at any base, canonical or not, an event verifies exactly under a condition read off its old list; an empty one exactly when the command reaches an alias |
| `HookInstaller.AnyBaseFileVerifiesIff` | app/services/hooks_service.py:572-617 | At any base, the installed file verifies exactly when each core event met that condition |
| `SafeWrite.Disk.AtomicWrite` | app/services/hooks_service.py:1111-1152 | At every intermediate state the target holds the whole old or the whole new bytes and no other file changes; failure leaves it alone |
| `SafeWrite.Disk.WriteBackup` | app/services/hooks_service.py:1155-1168 | The backup goes under the first free name, so none is overwritten, and it is all there or not at all |
| `SafeWrite.BackupNamesDiffer` | app/services/hooks_service.py:1162-1166 | The names tried are pairwise different, so the free-name loop ends |
| `HookInstallRun.InstallOne` | app/services/hooks_service.py:1171-1245 | At every reachable state the file is whole, and new bytes over an old file appear only beside an exact backup of it |
| `HookInstallRun.Decide` | app/services/hooks_service.py:1200-1221 | Refusing, keeping or writing is decided from the bytes alone, as specified |
| `HookInstallRun.IntentMeans` | app/services/hooks_service.py:1171-1222 | An install refuses what is no object of the right shape, writes the merged body exactly when some event needs work, and else keeps the file |
| `HookInstallRun.MissingFileIsWritten` | app/services/hooks_service.py:1171-1222 | A missing file is written |
| `HookInstallRun.WriteBoth` | app/services/hooks_service.py:1223-1245 | Backup then file: every state between is crash safe, and success leaves both |
| `HookInstallRun.WrittenFileIsKept` | app/services/hooks_service.py:1171-1245 | Whatever an install would write, an install of that file would keep, when the body written is read back as rendered |
| `HookInstallRun.InstallTwice` | app/services/hooks_service.py:1171-1245 | A second install after a first never reaches the disk, so it takes no second backup, when the body written is read back as rendered |
| `AliasSeam.Slugify` | app/services/_sql.py:57-72 | The loop that replaces dash pairs until none is left computes the string with every dash run collapsed |
| `AliasSeam.ReplaceKeepsCollapse` | app/services/_sql.py:69-71 | One pass of the pair replacement never changes what the string collapses to |
| `AliasSeam.ProjectSlugIsClean` | app/services/command_center_service.py:361-362 | A project slug is non-empty, has no edge dash and no double dash |
| `AliasSeam.SafeNameIsClean` | app/services/command_center_service.py:365-377 | A safe agent name is non-empty, has no edge dash and no double dash |
| `AliasSeam.SafeNameHasNoSeparator` | app/services/command_center_service.py:365-377 | A safe agent name holds no path separator and no dot |
| `AliasSeam.SlugJoinsWords` | app/services/_sql.py:57-72 | A slug keeps words of letters and digits, joins them by one dash, and falls back for nothing |
| `AliasSeam.SafeNameKeepsNames` | app/services/command_center_service.py:365-377 | A separator between clean parts of a name becomes one dash; no name becomes `unknown` |
| `AliasSeam.SplitInvertsAlias` | app/services/agent_alias_service.py:24-60 | Splitting an alias at its first double dash gives back the slug and the safe name |
| `AliasSeam.AliasIsInjective` | app/services/agent_alias_service.py:24-60 | Two equal aliases were made from the same slug and the same safe name |
| `AliasSeam.AliasIsNeverTheDeclaredName` | app/services/command_center_service.py:239-246 | No alias, with or without the row id, equals the declared name it came from |
| `NameAllocator.Collector.Collect` | app/services/command_center_service.py:151-302 | The two-pass loops leave the specified links, conflicts, claimed names and filenames |
| `NameAllocator.Collector.PlaceProjectAgents` | app/services/command_center_service.py:219-302 | The second pass places each row as specified, whatever state it starts from |
| `NameAllocator.CountClaimants` | app/services/command_center_service.py:225-227 | The counting pass counts the rows of each name |
| `NameLaws.NamesAreUniqueIff` | app/services/command_center_service.py:151-302 | All invocable names are distinct exactly when the org names were, and all filenames exactly when the org filenames were |
| `NameLaws.RowOutcome` | app/services/command_center_service.py:229-302 | Each row is linked under one of its own spellings or reported, reported exactly when every spelling is taken, contested wherever its name is claimed twice |
| `NameLaws.AttemptsAreSpelled` | app/services/command_center_service.py:239-255 | A spelling differs from the declared name exactly for a contested aliasable row, and then splits into its project slug |
| `NameLaws.CopyExactlyWhenContested` | app/services/command_center_service.py:229-302 | A link is a generated copy exactly when its row is contested and aliasable; an aliasable row whose name is claimed twice never gets the bare name, for any row order |
| `NameLaws.RowsArePartitioned` | app/services/command_center_service.py:229-302 | The row ids of links and conflicts together are exactly the row ids given, each once |
| `NameLaws.ClaimantsIgnoreOrder` | app/services/command_center_service.py:225-227 | How many rows declare a name does not depend on their order; whether a row is contested can |
| `NameLaws.SqueezedOut` | app/services/command_center_service.py:257-282 | A row whose two aliases are the declared names of earlier rows is reported |
| `NameLaws.AliasableRowCanGoUnnamed` | app/services/command_center_service.py:257-282 | An aliasable row can end up as a conflict, against the comment that only unaliasable rows do |
| `NameOrder.ContestedIff` | app/services/command_center_service.py:219-237 | A row is contested exactly when its name is claimed twice or is the alias an earlier row was given |
| `NameOrder.ContestedInEveryOrder` | app/services/command_center_service.py:219-237 | Whether a row is contested does not depend on the order of the rows, when its name is no row's alias |
| `NameOrder.OrderMatters` | app/services/command_center_service.py:219-237 | A row claimed once, named as the alias of a twice-claimed row, is contested when that row comes first and not when it comes first itself, so even being contested can depend on the order |
| `NameOrder.ThreeRowsDisagree` | app/services/command_center_service.py:219-237 | Three rows in two orders, one of them contested in one order only |
| `NameOrder.UnnamedHasRivals` | app/services/command_center_service.py:239-282 | An aliasable row is reported only if both its aliases are borne by org agents, declared by earlier rows, or open to earlier rows of the same slug; the second only by an outright declaration or a safe name that ends in the row's id |
| `NameOrder.OrgNamesShutOutAliases` | app/services/command_center_service.py:239-282 | A contested aliasable row is reported wherever org agents bear both its aliases |
| `NameOrder.OrgNameShutsOutUnaliasable` | app/services/command_center_service.py:176-181 | A row that cannot be aliased is reported wherever an org agent has its name |
| `NameOrder.UnaliasableUnnamed` | app/services/command_center_service.py:176-181 | Otherwise such a row is reported only because of an earlier unaliasable namesake, an alias that is its name, or a rival for its last filename; an aliasable claimant never costs it the bare name |
| `NameOrder.OrdinaryRowsLeaveOneUnnamed` | app/services/command_center_service.py:239-282 | Four aliasable rows of one slug, no name with a double dash, of which the third is reported |
| `NameOrder.OrgAgentsAreLinked` | app/services/command_center_service.py:195-217 | Every org agent is linked under its own name and safe filename to its installed file |
| `NameOrder.ReportNamesTheOwner` | app/services/command_center_service.py:267-282 | A reported row is named with its project and with what shadows it: the org agent of its name, a project, or its own |
| `NameOutcome.OutcomeIgnoresOrderIff` | app/services/command_center_service.py:219-302 | For all rows and org agents: every row is given the same name and filename in every order exactly when no two rows want the same name or filename first, and then each gets what it wants first |
| `NameOutcome.FirstChoiceIs` | app/services/command_center_service.py:239-260 | What a row wants first: its plain alias, or that with its id, or nothing, as org agents bear them, when aliasable and claimed twice; else its bare name with the first filename no org agent has, or nothing beside an org agent of that name |
| `NameOutcome.OneAliasForTwo` | app/services/command_center_service.py:239-260 | Two aliasable claimants of one slug and one safe name, no org agent bearing their alias: the order matters |
| `NameOutcome.NamesakesSwapNames` | app/services/command_center_service.py:239-260 | Of two namesakes in projects of one slug the first gets `slug--name` and the second that with its id, both contested in either order |
| `NameOutcome.PlainNameIsNoAlias` | app/services/command_center_service.py:239-250 | A name without a double dash is no row's alias |
| `NameOutcome.UnrivalledAliasIsKept` | app/services/command_center_service.py:239-260 | An aliasable row of a name claimed twice gets its plain alias in every order, when no org agent bears it and no other row is a rival for it |
| `NameOutcome.UnrivalledNameIsKept` | app/services/command_center_service.py:239-260 | A row of a name claimed once gets that name in every order, when it is no row's alias and no other row is a rival for the row's last filename |
| `NameTidy.TidyOrderMattersIff` | app/services/command_center_service.py:219-302 | When every declared name is its own safe name, the order matters exactly when two rows of one name are both aliasable with one slug, or both unaliasable with no org agent of that name |
| `WorkspaceSwap.Workspace.Regenerate` | app/services/command_center_service.py:701-775 | From any state, every state on the way is safe and a run to the end leaves exactly the desired tree and nothing else |
| `WorkspaceSwap.Workspace.Swap` | app/services/command_center_service.py:768-775 | The renames pass only through the old tree, no tree, and the complete new tree |
| `WorkspaceSwap.Workspace.Build` | app/services/command_center_service.py:707-766 | The staging directory ends as the desired tree while the live one is not touched |
| `WorkspaceSwap.DesiredTreeHolds` | app/services/command_center_service.py:707-766 | The tree holds every item whose source can be had, with its content, unless a later item takes its path |
| `WorkspaceSwap.DesiredTreeHoldsOnly` | app/services/command_center_service.py:707-766 | Besides the items it holds the buckets and the built-in skill and nothing else; a missing source leaves no entry |
| `WorkspaceSwap.Workspace.EnsureDirs` | app/services/command_center_service.py:71-81 | The live directory only gains missing empty buckets |
| `WorkspaceSwap.CrashesNeverShowHalfATree` | app/services/command_center_service.py:701-775 | However many runs crash and wherever, the live tree is absent, the bare skeleton, or one of the complete trees with at most empty buckets added |
| `AttentionQueue.Queue.RefreshAll` | app/services/attention_service.py:825-860 | The refresh loops leave the specified table and report the specified numbers |
| `AttentionQueue.Queue.Answer` | app/services/attention_service.py:1019-1072 | Only a live row is answered; an unknown resolution, a resolved row or an absent one changes nothing |
| `AttentionQueue.Queue.Counts` | app/services/attention_service.py:1075-1120 | The open count is the number of open rows and the sum of its severities, each counted; muted rows and rows resolved since midnight are counted, the latter with the truncated mean of their ages |
| `AttentionQueue.OpenSplitsBySeverity` | app/services/attention_service.py:1075-1120 | The three severities account for every open row once |
| `AttentionLaws.UpsertKeeps` | app/services/attention_service.py:735-795 | An upsert keeps one live row per key, and changes rows only as rows may change |
| `AttentionLaws.RefreshKeeps` | app/services/attention_service.py:825-860 | A refresh keeps one live row per key and keys that tell their kind, and never touches a resolved row |
| `AttentionLaws.RespondKeeps` | app/services/attention_service.py:1019-1072 | A response keeps the same invariants |
| `AttentionLaws.RefreshIsExact` | app/services/attention_service.py:798-860 | After a refresh the live keys of every derived kind are exactly the keys just produced |
| `AttentionLaws.RefreshLeavesHookRows` | app/services/attention_service.py:688-860 | Hook rows change in a refresh only by their own mute or expiry running out |
| `AttentionLaws.MutesEndOnTime` | app/services/attention_service.py:688-700 | A muted row past its date is no longer muted after a refresh, and one not past it stays muted unless resolved |
| `AttentionLaws.RefreshMutesNothing` | app/services/attention_service.py:825-860 | A refresh mutes no row |
| `AttentionLaws.HookRowOutcome` | app/services/attention_service.py:688-732 | A live hook row is closed as expired past its expiry, opened past its mute with nothing else changed, and else left as it was |
| `AttentionLaws.ClearedRowIsClosed` | app/services/attention_service.py:703-822 | A live derived row whose condition was not met again is closed as cleared now, or as expired when it had |
| `AttentionLaws.UpsertShows` | app/services/attention_service.py:735-795 | After an upsert the live row says what the candidate says; an old row keeps its subject, first sighting and mute, a new one is open and seen once |
| `AttentionLaws.AnswerIsRecorded` | app/services/attention_service.py:1019-1072 | An answer closes its one row and records the resolution, the response and the moment |
| `AttentionLaws.RefreshIsIdempotent` | app/services/attention_service.py:825-860 | A second refresh at the same moment mints and resolves nothing and changes nothing but the sighting count |
| `AttentionRuns.RunKeeps` | app/services/attention_service.py:735-1072 | Over any interleaving: one live row per key, resolved rows frozen, first sightings fixed |
| `AttentionRuns.SeenCountIsSightings` | app/services/attention_service.py:735-795 | In any run, a live derived row has been seen once per refresh candidate with its key since it was minted |
| `AttentionRuns.SeenCountIsRefreshes` | app/services/attention_service.py:298-860 | In any run of what the producers and hooks can supply, a live derived row has been seen once per refresh since it was minted |
| `AttentionKeys.KeyTellsKind` | app/services/attention_service.py:298-685 | The key every producer spells determines its kind |
| `AttentionKeys.KeyNamesCondition` | app/services/attention_service.py:298-685 | Two derived conditions spell the same key only if they are the same session, schedule, budget crossing, task or notification |
| `AttentionKeys.ProducedOncePerKey` | app/services/attention_service.py:298-685 | Producers that select each row once produce derived kinds, rightly keyed, and no key twice in a pass |
| `AttentionKeys.PromptKeysMeetIff` | app/services/attention_service.py:885-907 | Two prompts share a key exactly when they are of one kind and their session and fingerprint joined by a colon read alike, which without colons in the sessions means one session and one fingerprint |
| `AttentionKeys.ToolPromptsMeetIff` | app/services/attention_service.py:885-907 | Prompts with tool-use ids share a key exactly when kind and session agree and the ids are one or agree on 64 characters |
| `AttentionKeys.ColonMovesTheSeam` | app/services/attention_service.py:944-1000 | A colon in a session or fingerprint lets two different prompts share a key |
| `AttentionKeys.HookCandidateIsWellKeyed` | app/services/attention_service.py:944-1016 | A hook item is keyed for its kind, outside the sweep, and not yet due |
| `AttentionKeys.HookItemsSay` | app/services/attention_service.py:944-1000 | Permission prompts and questions block for a quarter of an hour and await a response, announcements for an hour and await none; other events raise nothing |
| `AttentionKeys.FingerprintIs` | app/services/attention_service.py:885-907 | A prompt is told by its tool-use id, else by its own id, else by a digest of what it says |
| `AttentionKeys.ItemsSayWhatIsAsked` | app/services/attention_service.py:872-941 | Ordinary titles name the tool or repeat the message, and ordinary details join the type, the message and the place |
| `AttentionKeys.RecordHookItem` | app/services/attention_service.py:944-1016 | An unknown event or a payload without a session changes nothing; otherwise one row waits under the prompt's key with a fresh clock, the earlier row seen once more or a new one, and no other row has changed |
| `AttentionKeys.RedeliveryRestartsTheClock` | app/services/attention_service.py:735-795 | A prompt delivered again while it waits stays one row, with a new expiry |
| `AttentionKeys.ExpiredPromptReleasesItsKey` | app/services/attention_service.py:703-795 | Once a prompt has expired the same prompt mints a fresh row |
| `LaneReconciler.RankFacts` | app/services/lane_reconciler_service.py:111-170 | A lane is permitted exactly when it is listed for the field, and its rank is its place in the list |
| `LaneReconciler.MoneyBelievesVendor` | app/services/lane_reconciler_service.py:111-150 | For money and tokens the vendor outranks the transcript and that the hooks |
| `LaneReconciler.TranscriptKnowsOrigin` | app/services/lane_reconciler_service.py:111-150 | For provenance, titles and the branch the transcript outranks the hooks, and the vendor has no say |
| `LaneReconciler.HooksSeeLive` | app/services/lane_reconciler_service.py:111-150 | For live switches, liveness and attribution the hooks outrank the transcript, and the vendor has no say |
| `LaneReconciler.ClipKeeps` | app/services/lane_reconciler_service.py:195-212 | A recorded value is a prefix, whole up to 2048 characters |
| `LaneReconciler.Provenance.WinningClaim` | app/services/lane_reconciler_service.py:176-192 | The scan returns the strongest claim on record |
| `LaneReconciler.Provenance.Decide` | app/services/lane_reconciler_service.py:195-279 | A claim is granted exactly when the lane is permitted and no stronger lane holds one; only then is it recorded |
| `LaneReconciler.Read` | app/services/lane_reconciler_service.py:282-314 | An unregistered field raises; otherwise exactly the claimed fields asked about are reported, each with its strongest lane and that lane's value |
| `LaneReconciler.RecordHoldsTheStrongest` | app/services/lane_reconciler_service.py:176-230 | The strongest lane that ever called is on record, though outranked calls leave no trace |
| `LaneReconciler.AppliedIffNoStrongerCalled` | app/services/lane_reconciler_service.py:215-230 | In any run a call is granted exactly when its lane is permitted and no strictly stronger lane called before |
| `LaneReconciler.WinnerIsStrongestCaller` | app/services/lane_reconciler_service.py:282-314 | The reported lane is the strongest permitted lane that ever called, and none is reported exactly when none called |
| `LaneReconciler.WinnerIgnoresOrder` | app/services/lane_reconciler_service.py:176-192 | The same callers in any order, any number of times, leave the same winner |
| `LaneReconciler.ColumnHoldsWinnersLastWrite` | app/services/lane_reconciler_service.py:233-279 | A column written only on a grant holds the last write of the strongest caller |
| `Attribution.GroupsCountTouches` | app/services/attribution_service.py:111-117 | The window groups hold one entry per touched project with its number of touches |
| `Attribution.TokenDriftIsSmall` | app/services/attribution_service.py:134-156 | Rounding moves a turn's tokens by at most half a token per touched project |
| `Attribution.AttributeConserves` | app/services/attribution_service.py:84-156 | A turn's whole cost lands on its session's rows or, with no bucket, none of it; other sessions keep theirs |
| `Attribution.DistributePaysProjects` | app/services/attribution_service.py:138-156 | Each project gets the cost in proportion to its groups' touches; other sessions and untouched projects get nothing |
| `Attribution.DistributePaysTokens` | app/services/attribution_service.py:138-156 | And the tokens in the same proportion, rounded once per project |
| `Attribution.WindowIsTouched` | app/services/attribution_service.py:111-117 | The groups of a window count its touches, per project and all together |
| `Attribution.WindowsPartition` | app/services/attribution_service.py:103-117 | An event followed by a Stop of its session falls in exactly one turn window |
| `StopAccounting.Recorder.ClaimMoney` | app/services/agent_service.py:881-905 | The five claims of a Stop are granted as the record stood when it began |
| `StopAccounting.Recorder.WriteRow` | app/services/agent_service.py:911-942 | Liveness is always written, each money column only when granted |
| `StopAccounting.Recorder.AttributeTurn` | app/services/attribution_service.py:84-156 | The ledger loop splits the turn over its groups as specified |
| `StopAccounting.Recorder.RecordStop` | app/services/agent_service.py:818-966 | A Stop leaves the specified sessions, events, ledger and claims |
| `StopAccounting.ToolHookIsOneTouch` | app/services/agent_service.py:749-782 | A tool hook on a project's file adds one touch of that project to its own session's open turn and to no other, and makes the turn's split go by touches |
| `StopAccounting.ClaimsAreIndependent` | app/services/agent_service.py:881-905 | Each field's claim in a Stop is decided by the claims the Stop found |
| `StopAccounting.StopGrowsLedger` | app/services/agent_service.py:943-966 | A Stop adds its whole turn to the ledger, or nothing without a bucket |
| `StopAccounting.GroupsAreTouches` | app/services/attribution_service.py:111-133 | A Stop's groups are the touches of its window, else one touch of the session's project, else of the workspace's, else none |
| `StopAccounting.StopPaysProjects` | app/services/attribution_service.py:134-156 | A Stop pays each project of its session its share of cost and tokens, and nobody else anything |
| `StopAccounting.StopSplitsByTouches` | app/services/attribution_service.py:103-156 | A turn that touched files is split by the window's touch counts |
| `StopAccounting.StopClosesWindow` | app/services/agent_service.py:943-966 | A Stop closes its session's window and leaves the touches of every other |
| `StopAccounting.StopAddsTheTurn` | app/services/agent_service.py:881-942 | Where no stronger lane has a column, input is added to input, output to output, cost to cost, and the context is all that was read |
| `StopAccounting.PriceList` | app/services/agent_service.py:826-840 | Three dollars a million tokens read, thirty cents cached, fifteen written, nothing for filling the cache |
| `StopAccounting.StopClaimsItsFigures` | app/services/agent_service.py:881-905 | Each granted column's claim records that column's own figure |
| `StopAccounting.HooksTouchSessions` | app/services/agent_service.py:181-260 | A hook marks its session active, fills in a missing project only, and moves no money |
| `StopAccounting.OtherHookTouchesNothing` | app/services/agent_service.py:700-748 | An event that is no tool hook is no touch |
| `StopAccounting.VendorTotalsReplace` | app/services/lane_reconciler_service.py:233-256 | A vendor total replaces its own column of a known session and nothing else |
| `StopAccounting.MoneyIsConserved` | app/services/agent_service.py:818-966 | While hooks own the cost, a session's total is its project rows plus its turns without a bucket, in every run |
| `StopAccounting.StopLeavesTakenColumns` | app/services/agent_service.py:881-963 | A column a stronger lane holds is not moved by a Stop, while the ledger still grows by the full turn |
| `StopAccounting.VendorCostStands` | app/services/agent_service.py:881-963 | A vendor total stands through any further hooks |
| `OtlpPoints.AttributePresentIff` | app/services/otlp_receiver_service.py:508-564 | An attribute is read exactly when some entry under its key is readable |
| `OtlpPoints.LastReadableWins` | app/services/otlp_receiver_service.py:546-564 | Its value is the last readable entry's; malformed entries neither set nor clear it |
| `OtlpPoints.Attributes` | app/services/otlp_receiver_service.py:546-564 | The loop over the entries raises exactly when some keyed entry holds a number no float holds, and otherwise leaves the specified attributes |
| `OtlpPoints.Judge` | app/services/otlp_receiver_service.py:703-878 | An accepted point has a value in range, a session id within bounds and a stored instrument; a refused one has a point-level reason |
| `OtlpPoints.JudgeIff` | app/services/otlp_receiver_service.py:821-850 | Each refusal has exactly its cause, the earlier check naming it, and a malformed session id is one present at the closest level and unusable |
| `OtlpPoints.JudgeRaisesIff` | app/services/otlp_receiver_service.py:508-634 | A point raises exactly when an attribute overflows a float, its own number does in a stored and known series, or an acceptable point has a dimension without an encoding |
| `OtlpPoints.OversizedPointRaises` | app/services/otlp_receiver_service.py:567-603 | A cost point whose integer no float holds raises |
| `OtlpPoints.AcceptedMeans` | app/services/otlp_receiver_service.py:821-878 | An accepted point is stored under the trimmed id of the closest level, its own metric, number, temporality and cut labels, in a series told by all but identity attributes |
| `OtlpPoints.NumberIs` | app/services/otlp_receiver_service.py:567-603 | The number of a point is `asDouble` before `asInt`, as a number or in a string |
| `OtlpPoints.ScalarIs` | app/services/otlp_receiver_service.py:508-544 | Each scalar of an attribute is read under its own field; lists and maps are none |
| `OtlpPoints.TokenTypesAre` | app/services/otlp_receiver_service.py:220-230 | Each token type has its own metric and no other name has one |
| `OtlpPoints.CeilingsAre` | app/services/otlp_receiver_service.py:758-769 | The ceilings are ten thousand dollars and a million million tokens, and nothing is negative |
| `OtlpPoints.DimensionsRaiseIff` | app/services/otlp_receiver_service.py:611-634 | The digest can be made exactly when every non-identity attribute's name and text have an encoding |
| `OtlpPoints.DoubleOverflows` | app/services/otlp_receiver_service.py:539-543 | A keyed whole number under `doubleValue` raises exactly when no float holds it |
| `OtlpPoints.ClosestLevelDecides` | app/services/otlp_receiver_service.py:703-735 | The closest level that carries a session id decides, and an id that never arrived is told apart from a malformed one |
| `OtlpPoints.SeriesIgnoresIdentity` | app/services/otlp_receiver_service.py:261-286 | Attributes that are constant for a session never change the observation |
| `OtlpParse.Parser.Export` | app/services/otlp_receiver_service.py:770-878 | The four nested loops do all arrivals in order, or raise exactly when one of them raises where it is met |
| `OtlpParse.Parser.WalkMetric` | app/services/otlp_receiver_service.py:802-821 | One metric is skipped, counted as misshapen, raises on its temporality, or has its points walked, raising exactly when a point within the cap does |
| `OtlpAccounting.BooksAreExact` | app/services/otlp_receiver_service.py:770-878 | When the walk does not raise, the result is, count by count, the judgement of the first ten thousand points, the excess, and the misshapen instruments |
| `OtlpAccounting.AccountingCloses` | app/services/otlp_receiver_service.py:655-665 | Observations plus rejections equal points seen plus unsupported shapes |
| `OtlpAccounting.RaisesIff` | app/services/otlp_receiver_service.py:510-634 | The walk raises exactly when a resource or scope carries an attribute no float holds, a metric's temporality is a list or an object, or one of the first ten thousand points raises |
| `OtlpAccounting.MisshapenAreCounted` | app/services/otlp_receiver_service.py:803-814 | The instruments of an unsupported shape are the metrics of a stored instrument without a sum, each counted once |
| `OtlpPlaces.WalkMeetsThePoints` | app/services/otlp_receiver_service.py:770-825 | The points the walk meets are exactly the data points of the body, in document order, each with its own metric's instrument and temporality and its own levels' attributes |
| `OtlpPlaces.TemporalityIsTold` | app/services/otlp_receiver_service.py:247-254 | Delta and cumulative are told by number, number in a string, or name; anything else is cumulative |
| `OtlpSeries.UpsertTouchesOne` | app/services/otlp_receiver_service.py:896-919 | The upsert changes its own series row and no other |
| `OtlpSeries.RowsAreFolds` | app/services/otlp_receiver_service.py:896-919 | Each row is the fold of exactly its own arrivals: value, count, labels and stamps |
| `OtlpSeries.TableListsSeries` | app/services/otlp_receiver_service.py:896-919 | The table holds one row per series, in order of first arrival |
| `OtlpSeries.CumulativeIsMaximum` | app/services/otlp_receiver_service.py:901-910 | A cumulative series holds the largest of its arrivals |
| `OtlpSeries.CumulativeIgnoresOrderAndRepeats` | app/services/otlp_receiver_service.py:901-910 | Neither order nor repeats of cumulative arrivals matter |
| `OtlpSeries.DeltaIgnoresOrder` | app/services/otlp_receiver_service.py:901-910 | A delta series holds the sum of its arrivals in any order |
| `OtlpSeries.FoldNeverDecreases` | app/services/otlp_receiver_service.py:901-910 | Any mix never lowers a stored value and covers every arrival |
| `OtlpSeries.RetryIsHarmlessIff` | app/services/otlp_receiver_service.py:901-910 | A point sent twice in a row is harmless exactly when it is cumulative or zero |
| `OtlpSeries.MixedOrderMattersIff` | app/services/otlp_receiver_service.py:901-910 | A cumulative and a delta arrival can be swapped exactly when the delta is zero or the total is not above what is stored |
| `OtlpSeries.TotalsAreSumsOfFolds` | app/services/otlp_receiver_service.py:1081-1102 | A session's total of a metric is the sum of the folds of its distinct series |
| `OtlpSeries.TopModel` | app/services/otlp_receiver_service.py:1104-1112 | The label shown is the model of a labelled cost series that no other labelled one exceeds, and none exactly when no series is labelled |
| `OtlpIngest.Receiver.KnownSessions` | app/services/otlp_receiver_service.py:922-943 | The chunked lookup raises exactly when some id has no encoding, and is otherwise the plain intersection with the known sessions |
| `OtlpIngest.Receiver.StoreObservations` | app/services/otlp_receiver_service.py:1007-1043 | The loop with its cache of series stores and refuses what deciding on the table would |
| `OtlpIngest.Receiver.StoreObservation` | app/services/otlp_receiver_service.py:1011-1043 | The cache equals the session's rows at every step |
| `OtlpIngest.Receiver.Ingest` | app/services/otlp_receiver_service.py:981-1075 | An export stores and reports as specified and continues any run of calls; it raises exactly when the walk does or an accepted point's session has no encoding, and then nothing is stored |
| `OtlpIngest.UpsertAddsItsSeries` | app/services/otlp_receiver_service.py:946-968 | After an upsert the session has its series and no other series changed |
| `OtlpIngest.SeriesAreRows` | app/services/otlp_receiver_service.py:946-968 | Counting a session's series counts its rows |
| `OtlpIngest.ExistingSeriesIsNeverRefused` | app/services/otlp_receiver_service.py:1011-1043 | An arrival on a stored series is stored however full the session is |
| `OtlpIngest.StoredIff` | app/services/otlp_receiver_service.py:1007-1043 | An arrival is stored exactly when its session is known and it has a row or its session fewer than 2048; else the refusal names which |
| `OtlpIngest.KnownIsEnough` | app/services/otlp_receiver_service.py:997-1014 | Looking up only the export's own sessions decides as the full table would |
| `OtlpIngest.RunsFold` | app/services/otlp_receiver_service.py:896-1102 | After any run of stored exports: the cap holds, rows are folds, totals are sums of folds |
| `OtlpIngest.RequestsFold` | app/services/otlp_receiver_service.py:896-1102 | The same after any run of calls, of which those that raise leave the table alone |
| `OtlpIngest.IngestCloses` | app/services/otlp_receiver_service.py:972-1075 | Accepted plus rejected equals points seen plus unsupported shapes |
| `PathPrefix.PrefixIsBoundarySafe` | app/services/cwd_resolver_service.py:222-236 | A root owns what is under a slash below it and never a sibling that starts alike |
| `PathPrefix.PrefixesNest` | app/services/cwd_resolver_service.py:222-236 | Two roots over one path are nested |
| `PathPrefix.FindRepoRoot` | app/services/cwd_resolver_service.py:359-387 | The walking loop finds what the specification finds |
| `PathPrefix.WalkIsDeepest` | app/services/cwd_resolver_service.py:359-387 | The walk finds the deepest ancestor with a git entry among those within 40 levels and not above home, and none exactly when none is there |
| `ProjectMatch.MatchProject` | app/services/cwd_resolver_service.py:457-499 | The scan over the ordered rows returns the first owner |
| `ProjectMatch.OwnerIsFirst` | app/services/cwd_resolver_service.py:457-499 | Some row answers exactly when some row owns the path, and no owner sorts before it |
| `ProjectMatch.OwnsMeans` | app/services/cwd_resolver_service.py:457-499 | A row owns its root path, or the given path where that is missing, and what lies below it |
| `ProjectMatch.OwnerIsLongestStored` | app/services/cwd_resolver_service.py:457-499 | The answer's root is the longest as stored, and the oldest row's among equals |
| `ProjectMatch.MostSpecificIff` | app/services/cwd_resolver_service.py:457-499 | The longest matching root answers for every path exactly when every nested root has a spelling that sorts before the root around it |
| `ProjectMatch.TidyRootsAreNestedFirst` | app/services/cwd_resolver_service.py:457-499 | Roots stored without trailing slashes always come in that order |
| `ProjectMatch.TrailingSlashesHideNestedProject` | app/services/cwd_resolver_service.py:457-499 | Three trailing slashes are enough for an outer root to win over a project inside it |
| `CwdResolver.EnabledRootIff` | app/services/cwd_resolver_service.py:502-526 | Discovery is allowed exactly under some enabled root |
| `CwdResolver.EphemeralIff` | app/services/cwd_resolver_service.py:289-296 | A directory is throwaway exactly when it is a throwaway root or lies below one |
| `CwdResolver.AnswerMeans` | app/services/cwd_resolver_service.py:592-660 | A resolution says nothing of an unusable directory, no project of a throwaway one, and else names an owner exactly when there is one |
| `CwdResolver.DiscoversIff` | app/services/cwd_resolver_service.py:680-720 | A project is discovered exactly in an unowned repository under an enabled root and outside throwaway directories |
| `CwdResolver.Projects.CreateDiscovered` | app/services/cwd_resolver_service.py:544-589 | A new row is appended, or the row that already has this root is returned |
| `CwdResolver.Projects.Resolve` | app/services/cwd_resolver_service.py:592-679 | A project is inserted exactly when the probe says so and discovery is allowed; otherwise the owner answers |
| `CwdResolver.Projects.ResolveTwice` | app/services/cwd_resolver_service.py:623-720 | Resolving again gives the same answer and inserts nothing |
| `CwdResolver.UnownedIsUnclaimed` | app/services/cwd_resolver_service.py:544-589 | A repository no row owns is no row's stored root, so the insert meets no conflict |
| `CwdResolver.DiscoveredRowOwns` | app/services/cwd_resolver_service.py:544-720 | Once discovered, the new row owns its repository and the probe answers no |
| `CwdResolver.DiscoverySettles` | app/services/cwd_resolver_service.py:592-720 | After a resolution the same directory would discover nothing and gets the same answer |
| `Timestamps.BelowIsTotal` | app/services/event_retention_service.py:421-429 | The string comparison orders any two timestamps one way |
| `Timestamps.SpacedAgree` | app/services/event_retention_service.py:401-409 | Both spellings of one moment become the same string |
| `Timestamps.RawSpellingsDiffer` | app/services/event_retention_service.py:401-407 | Compared raw, the two spellings of one moment differ |
| `EventRetention.Table.DeleteBatch` | app/services/event_retention_service.py:421-436 | A batch removes as many expired rows as fit, whichever they are, and no other row |
| `EventRetention.Table.Prune` | app/services/event_retention_service.py:396-465 | The batches together leave exactly the rows one big delete would, with the exact count and its ceiling by 5000 |
| `EventRetention.ExactlyOneClass` | app/services/event_retention_service.py:123-226 | Every event is in exactly one of the three classes on its table |
| `EventRetention.ThreePrunesAreOne` | app/services/event_retention_service.py:496-515 | Pruning class by class is deleting each row by the window of its own class, counted once |
| `EventRetention.ClassesAre` | app/services/event_retention_service.py:105-206 | Scratch sessions' events, tool calls and session anchors fall in their own classes |
| `EventRetention.PruneKeepsIff` | app/services/event_retention_service.py:396-436 | An event is kept exactly when it is not older than its own class's cutoff |
| `EventRetention.SeriesKeptIff` | app/services/event_retention_service.py:206-250 | A series is kept exactly when the last export that touched it is not older than the cutoff |
| `EventRetention.Store.PruneAll` | app/services/event_retention_service.py:468-515 | The five prunes leave and report what those single deletes would |
| `EventRetention.Store.PruneTwice` | app/services/event_retention_service.py:480-483 | With the same cutoffs a second prune deletes nothing |
| `EventRetention.ResolveRetentionDays` | app/services/event_retention_service.py:291-347 | Reading raises exactly when some stored window is infinite; otherwise every class gets its stored window, clamped, or its default |
| `EventRetention.WindowsAreSane` | app/services/event_retention_service.py:283-347 | No window so read is below one day or above a year, and settings that cannot be read mean the default |
| `EventRetention.StoredWindowIsUsed` | app/services/event_retention_service.py:331-346 | A stored window within bounds is used as it is, one beyond them as the bound it passed |
| `EventRetention.DefaultsGrow` | app/services/event_retention_service.py:168-250 | Without a setting: a week, a month, a quarter |
| `Calendar.OrdinalOrders` | app/services/budget_service.py:41-71 | Earlier dates have smaller day numbers, and equal numbers are equal dates |
| `Calendar.OrdinalInClosedForm` | app/services/budget_service.py:54-70 | Counting days one by one agrees with the Gregorian leap-year formula |
| `Calendar.DateStringsOrder` | app/services/budget_service.py:71 | Dates compare as strings exactly as they compare as dates |
| `Calendar.MidnightIsFirst` | app/services/budget_service.py:54-71 | No time of day sorts before midnight |
| `BudgetPeriods.WeekStartIsMonday` | app/services/budget_service.py:57-60 | The start of the week is today minus its weekday |
| `BudgetPeriods.PeriodsPartition` | app/services/budget_service.py:41-71 | A date is in its own period, and a date is in a period exactly when that is its own |
| `BudgetPeriods.DaysAndMonths` | app/services/budget_service.py:54-70 | A day's period is that day and a month's the calendar month |
| `BudgetPeriods.EndStartsNext` | app/services/budget_service.py:41-71 | The period of a period's end starts at that end |
| `BudgetPeriods.BoundsMeet` | app/services/budget_service.py:41-71 | The start string of the period after this one is this one's end string |
| `BudgetPeriods.OverflowsIff` | app/services/budget_service.py:41-71 | Bounds cannot be computed exactly in the periods that hold the last day of year 9999 |
| `BudgetPeriods.MidnightDecidesByDate` | app/services/budget_service.py:205-241 | Against a midnight bound a timestamp in either spelling compares like its date |
| `BudgetPeriods.TimestampInExactlyItsPeriod` | app/services/budget_service.py:205-241 | The raw comparison places a timestamp in a period exactly when it is its own date's period |
| `BudgetPeriods.StartNamesPeriod` | app/services/budget_service.py:318-328 | Two dates share a period start string exactly when they share the period |
| `BudgetPeriods.SpendCountsEachOnce` | app/services/budget_service.py:205-241 | A period's spend is the spend of exactly the sessions that started in it |
| `BudgetAlerts.Alerts.EvaluateBudget` | app/services/budget_service.py:313-350 | Crossed thresholds are inserted lowest first and only a won insert notifies |
| `BudgetAlerts.Alerts.Evaluate` | app/services/budget_service.py:268-351 | An evaluation, reading the clock and the spend anew for each budget, makes the specified inserts up to the first relevant budget whose bounds raise |
| `BudgetAlerts.AttemptedIff` | app/services/budget_service.py:313-328 | An alert is attempted exactly when some relevant budget's spend has reached that threshold of its limit |
| `BudgetAlerts.RelevantIff` | app/services/budget_service.py:295-308 | A write concerns the enabled budgets of the workspace, of its project and of its profile, and with neither part all |
| `BudgetAlerts.RatioReaches` | app/services/budget_service.py:244-265 | A percentage is reached exactly when that many hundredths of the limit are spent |
| `BudgetAlerts.EachFiresOnce` | app/services/budget_service.py:319-331 | Whatever is attempted and however often, each budget, period and threshold notifies exactly once |
| `BudgetAlerts.FiredSetIsDownwardClosed` | app/services/budget_service.py:315-331 | A fired threshold has every lower one fired beside it |
| `BudgetAlerts.EvaluationAscends` | app/services/budget_service.py:315-331 | One evaluation attempts each threshold after the lower ones |
| `BudgetAlerts.InterleavingAscends` | app/services/budget_service.py:319-331 | Any interleaving of two evaluations keeps that order, so concurrent hooks keep both guarantees |
| `BudgetAlerts.NotifiedIffDue` | app/services/budget_service.py:244-351 | On the real calendar, over any evaluations however interleaved: a budget, a period start and a threshold notify exactly when some evaluation found the charges dated in the budget's period starting that day at the threshold, and then once |
| `BudgetAlerts.EvaluationIsAttempted` | app/services/budget_service.py:310-328 | One evaluation attempts exactly the rows reached at its moments |
| `BudgetAlerts.SharedRowIff` | app/services/budget_service.py:41-71 | Two moments of a budget share their ledger rows exactly when their periods start on one day, which with an unchanged period means one window |
| `BudgetAlerts.EditedPeriodInheritsRows` | app/services/budget_service.py:149-180 | A daily budget made monthly on the first of a month finds its thresholds already fired |

## Left out

- Routers, SSE streams, publish queues, Pydantic models, notifications and their texts, the desktop side, configuration.
- SQLite itself and async scheduling: statements are atomic and succeed; the partial unique index, primary keys and the unique project root are invariants the statements keep.
- Hooks: an empty base URL standing for the configured one, the internals of URL splitting (its errors included), size and encoding refusals (folded into a failed parse), path and permission checks before the write, permission bits, fsync durability, other processes writing the same file, and the exact wording of verdicts and refusals.
- Hook verifier: the detail text of a mismatch beyond its reason.
- Allocator: skills and commands, whose third spelling the code does not check again.
- Workspace: contents of links and generated copies, catalog events, database stamps on rows. A crash between the two renames leaves no live tree until the next run; the model shows that state and proves a full run recovers from it.
- Attention: what each producer selects is its answer at a moment; titles and details of derived items are opaque; ages are whole seconds, so float error in their mean is not modelled; a hook item whose write fails is logged and dropped, and here every write succeeds; nothing in the modelled code writes a muted row, so mutes exist only as initial rows.
- Lanes: columns beyond those a claim guards, and the transcript reader that is the third writer.
- Attribution: matching a touched file to a project (a tool event carries the answer), and how transcripts are read (a Stop carries the last turn's usage).
- Stop accounting: the exact five-field claim order is kept; provider ids, summaries and broadcast messages are not modelled, and retention never deletes an event during a run.
- `StopAccounting.MoneyIsConserved`: money is `real`, so floating-point error is not modelled.
- OTLP: body decoding (gzip, sizes, JSON text), statistics and throttled warnings, the digest of a series and the parsing of numbers out of strings (parameters), reconciliation into session columns. A `char` here is never a lone surrogate, so which strings have an encoding is a parameter, as is which integers fit a float.
- Resolver: case-insensitive platforms, branch parsing, `realpath` (a parameter that answers with absolute paths), stat errors, which read as no entry there.
- Retention: a driver that cannot report a row count; JSON nested beyond the interpreter's recursion limit.
- Budgets: creating and editing them, the hard stop, and rounding of percentages (a parameter); sessions whose start is not a well-formed timestamp.
- Insights, launch presets, library, documents, inbox, schedules and caches: they add only simple reads and writes.
