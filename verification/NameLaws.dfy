/** What the name allocation guarantees, whatever the order of the rows. */
module NameLaws {
  import opened Text
  import opened AliasSeam
  import opened NameAllocator

  function Aliases(links: seq<Link>): seq<string> {
    seq(|links|, i requires 0 <= i < |links| => links[i].alias)
  }

  function Filenames(links: seq<Link>): seq<string> {
    seq(|links|, i requires 0 <= i < |links| => links[i].filename)
  }

  predicate Distinct(names: seq<string>) {
    forall i, j | 0 <= i < j < |names| :: names[i] != names[j]
  }

  lemma {:induction false} DistinctAppend(names: seq<string>, name: string)
    ensures Distinct(names + [name]) <==> Distinct(names) && name !in names
  {
    var all := names + [name];
    if Distinct(all) {
      assert forall i | 0 <= i < |names| :: all[i] == names[i] && all[i] != all[|names|];
    }
  }

  /** The lookup tables hold exactly the names and filenames handed out. */
  ghost predicate Consistent(st: State) {
    && (forall name :: name in st.claimed <==> name in Aliases(st.desired))
    && (forall name :: name in st.seen <==> name in Filenames(st.desired))
  }

  lemma {:induction false} Grown(st: State, link: Link)
    ensures Aliases(st.desired + [link]) == Aliases(st.desired) + [link.alias]
    ensures Filenames(st.desired + [link]) == Filenames(st.desired) + [link.filename]
    ensures Distinct(Aliases(st.desired + [link])) <==> Distinct(Aliases(st.desired)) && link.alias !in Aliases(st.desired)
    ensures Distinct(Filenames(st.desired + [link])) <==> Distinct(Filenames(st.desired)) && link.filename !in Filenames(st.desired)
  {
    DistinctAppend(Aliases(st.desired), link.alias);
    DistinctAppend(Filenames(st.desired), link.filename);
  }

  function OrgNames(orgs: seq<OrgAgent>): seq<string> {
    seq(|orgs|, i requires 0 <= i < |orgs| => orgs[i].name)
  }

  function OrgFilenames(n: Naming, orgs: seq<OrgAgent>): seq<string> {
    seq(|orgs|, i requires 0 <= i < |orgs| => n.orgFilename(orgs[i].name))
  }

  lemma {:induction false} OrgStepFacts(n: Naming, st: State, org: OrgAgent)
    requires Consistent(st)
    ensures var st' := OrgStep(n, st, org);
      && Consistent(st')
      && Aliases(st'.desired) == Aliases(st.desired) + [org.name]
      && Filenames(st'.desired) == Filenames(st.desired) + [n.orgFilename(org.name)]
  {
    Grown(st, OrgStep(n, st, org).desired[|st.desired|]);
  }

  lemma {:induction false} OrgsAreClaimed(n: Naming, orgs: seq<OrgAgent>)
    ensures Consistent(ClaimOrgs(n, orgs))
    ensures Aliases(ClaimOrgs(n, orgs).desired) == OrgNames(orgs)
    ensures Filenames(ClaimOrgs(n, orgs).desired) == OrgFilenames(n, orgs)
  {
    if orgs != [] {
      var front, last := orgs[..|orgs| - 1], orgs[|orgs| - 1];
      OrgsAreClaimed(n, front);
      OrgStepFacts(n, ClaimOrgs(n, front), last);
      OrgListsGrow(n, orgs);
    }
  }

  lemma {:induction false} OrgListsGrow(n: Naming, orgs: seq<OrgAgent>)
    requires orgs != []
    ensures var front, last := orgs[..|orgs| - 1], orgs[|orgs| - 1];
      OrgNames(orgs) == OrgNames(front) + [last.name] && OrgFilenames(n, orgs) == OrgFilenames(n, front) + [n.orgFilename(last.name)]
  {
  }

  /** One step, seen from outside: the row is linked under a fresh name and filename, or it is reported. */
  lemma {:induction false} StepFacts(n: Naming, st: State, row: ProjectAgent, claimants: nat)
    requires Consistent(st)
    ensures var st' := AgentStep(n, st, row, claimants);
      && Consistent(st')
      && (Distinct(Aliases(st'.desired)) <==> Distinct(Aliases(st.desired)))
      && (Distinct(Filenames(st'.desired)) <==> Distinct(Filenames(st.desired)))
  {
    var st' := AgentStep(n, st, row, claimants);
    var chosen := FirstFree(st, n.attempts(row, Contested(st, row, claimants)));
    if chosen.Some? {
      Grown(st, st'.desired[|st.desired|]);
    }
  }

  lemma {:induction false} PlacementKeepsNames(n: Naming, start: State, rows: seq<ProjectAgent>, k: nat)
    requires Consistent(start) && k <= |rows|
    ensures var st := PlaceAgents(n, start, rows, k);
      && Consistent(st)
      && (Distinct(Aliases(st.desired)) <==> Distinct(Aliases(start.desired)))
      && (Distinct(Filenames(st.desired)) <==> Distinct(Filenames(start.desired)))
  {
    if k > 0 {
      PlacementKeepsNames(n, start, rows, k - 1);
      StepFacts(n, PlaceAgents(n, start, rows, k - 1), rows[k - 1], Claimants(rows, rows[k - 1].name));
    }
  }

  /** Invocable names are unique exactly when the org agents' were; filenames, when the org agents' safe names were. */
  lemma {:induction false} NamesAreUniqueIff(n: Naming, orgs: seq<OrgAgent>, rows: seq<ProjectAgent>)
    ensures Distinct(Aliases(Allocate(n, orgs, rows).desired)) <==> Distinct(OrgNames(orgs))
    ensures Distinct(Filenames(Allocate(n, orgs, rows).desired)) <==> Distinct(OrgFilenames(n, orgs))
  {
    OrgsAreClaimed(n, orgs);
    PlacementKeepsNames(n, ClaimOrgs(n, orgs), rows, |rows|);
  }

  /** What happened to the row between two states: it was linked, or reported, and nothing else changed. */
  ghost predicate LinkedAs(st: State, st': State, row: ProjectAgent, link: Link) {
    && st'.desired == st.desired + [link] && st'.conflicts == st.conflicts
    && !link.ofOrg && link.rowId == row.id && link.canonicalPath == row.canonicalPath
  }

  ghost predicate Reported(st: State, st': State, row: ProjectAgent) {
    st'.desired == st.desired && |st'.conflicts| == |st.conflicts| + 1
    && st'.conflicts[..|st.conflicts|] == st.conflicts && st'.conflicts[|st.conflicts|].rowId == row.id
  }

  /** Two project agents declare the name, or an org agent bears it: known before any row is placed. */
  predicate ClaimedTwice(orgs: seq<OrgAgent>, rows: seq<ProjectAgent>, row: ProjectAgent) {
    Claimants(rows, row.name) > 1 || row.name in OrgNames(orgs)
  }

  lemma {:induction false} ClaimsOnlyGrow(n: Naming, start: State, rows: seq<ProjectAgent>, k: nat)
    requires k <= |rows|
    ensures start.claimed.Keys <= PlaceAgents(n, start, rows, k).claimed.Keys
  {
    if k > 0 {
      ClaimsOnlyGrow(n, start, rows, k - 1);
    }
  }

  /** Each row is linked or reported, never both, and a row whose name is claimed twice is contested wherever it stands. */
  lemma {:induction false} RowOutcome(n: Naming, orgs: seq<OrgAgent>, rows: seq<ProjectAgent>, k: nat)
    requires k < |rows|
    ensures var st, st' := PlaceAgents(n, ClaimOrgs(n, orgs), rows, k), PlaceAgents(n, ClaimOrgs(n, orgs), rows, k + 1);
      var row := rows[k];
      var contested := Contested(st, row, Claimants(rows, row.name));
      && (ClaimedTwice(orgs, rows, row) ==> contested)
      && (Reported(st, st', row) <==> forall a | a in n.attempts(row, contested) :: !Free(st, a))
      && (|| Reported(st, st', row)
          || (&& |st'.desired| == |st.desired| + 1
              && LinkedAs(st, st', row, st'.desired[|st.desired|])
              && var link := st'.desired[|st.desired|];
                 && Attempt(link.alias, link.filename) in n.attempts(row, contested)
                 && link.materialize == (link.alias != row.name)))
  {
    var start := ClaimOrgs(n, orgs);
    OrgsAreClaimed(n, orgs);
    ClaimsOnlyGrow(n, start, rows, k);
    assert rows[k].name in OrgNames(orgs) ==> rows[k].name in Aliases(start.desired) && rows[k].name in start.claimed;
  }

  /** The spellings tried: a generated copy for a contested row that can carry one, under `slug--…`; the declared name for any other. */
  lemma {:induction false} AttemptsAreSpelled(u: Unicode, row: ProjectAgent, contested: bool, a: Attempt)
    requires u.Sane() && a in Attempts(u, row, contested)
    ensures a.invocable != row.name <==> contested && row.aliasable
    ensures contested && row.aliasable ==> HasDouble(a.invocable) && SplitAtSeam(a.invocable).0 == ProjectSlug(u, row.project)
  {
    AliasIsNeverTheDeclaredName(u, row.project, row.name, row.id);
    if contested && row.aliasable {
      var slug, safe := ProjectSlug(u, row.project), SafeName(row.name);
      ProjectSlugIsClean(u, row.project);
      SafeNameIsClean(row.name);
      assert a.invocable == AliasName(slug, safe) || a.invocable == AliasWithId(slug, safe, row.id);
      AliasesSplit(slug, safe, row.id);
    }
  }

  lemma {:induction false} AliasesSplit(slug: string, safe: string, id: nat)
    requires Clean(slug) && Clean(safe)
    ensures forall alias | alias == AliasName(slug, safe) || alias == AliasWithId(slug, safe, id) ::
              HasDouble(alias) && SplitAtSeam(alias).0 == slug
  {
    SplitInvertsAlias(slug, safe);
    AliasWithIdIsAlias(slug, safe, id);
    SplitInvertsAlias(slug, safe + "-" + Decimal(id));
  }

  /** A link is a generated copy exactly when its row was contested and can carry one; an aliasable row whose name is claimed
      twice never gets the bare name, whatever the order of the rows. */
  lemma {:induction false} CopyExactlyWhenContested(u: Unicode, orgs: seq<OrgAgent>, rows: seq<ProjectAgent>, k: nat)
    requires u.Sane() && k < |rows|
    ensures var n := Spelling(u);
      var st, st' := PlaceAgents(n, ClaimOrgs(n, orgs), rows, k), PlaceAgents(n, ClaimOrgs(n, orgs), rows, k + 1);
      |st'.desired| > |st.desired| ==>
        var link := st'.desired[|st.desired|];
        && (link.materialize <==> Contested(st, rows[k], Claimants(rows, rows[k].name)) && rows[k].aliasable)
        && (link.materialize <==> link.alias != rows[k].name)
        && (link.materialize ==> HasDouble(link.alias) && SplitAtSeam(link.alias).0 == ProjectSlug(u, rows[k].project))
        && (ClaimedTwice(orgs, rows, rows[k]) && rows[k].aliasable ==> link.alias != rows[k].name)
  {
    var n := Spelling(u);
    var st, st' := PlaceAgents(n, ClaimOrgs(n, orgs), rows, k), PlaceAgents(n, ClaimOrgs(n, orgs), rows, k + 1);
    RowOutcome(n, orgs, rows, k);
    if |st'.desired| > |st.desired| {
      var link := st'.desired[|st.desired|];
      AttemptsAreSpelled(u, rows[k], Contested(st, rows[k], Claimants(rows, rows[k].name)), Attempt(link.alias, link.filename));
    }
  }

  function LinkIds(links: seq<Link>): multiset<nat> {
    if links == [] then multiset{}
    else LinkIds(links[..|links| - 1]) + if links[|links| - 1].ofOrg then multiset{} else multiset{links[|links| - 1].rowId}
  }

  function ConflictIds(conflicts: seq<Conflict>): multiset<nat> {
    if conflicts == [] then multiset{}
    else ConflictIds(conflicts[..|conflicts| - 1]) + multiset{conflicts[|conflicts| - 1].rowId}
  }

  function RowIds(rows: seq<ProjectAgent>): multiset<nat> {
    if rows == [] then multiset{} else RowIds(rows[..|rows| - 1]) + multiset{rows[|rows| - 1].id}
  }

  lemma {:induction false} OrgsHaveNoRowIds(n: Naming, orgs: seq<OrgAgent>)
    ensures LinkIds(ClaimOrgs(n, orgs).desired) == multiset{}
    ensures ClaimOrgs(n, orgs).conflicts == []
  {
    if orgs != [] {
      OrgsHaveNoRowIds(n, orgs[..|orgs| - 1]);
      var st := ClaimOrgs(n, orgs[..|orgs| - 1]);
      assert ClaimOrgs(n, orgs).desired[..|st.desired|] == st.desired;
    }
  }

  lemma {:induction false} StepMovesOneId(st: State, st': State, row: ProjectAgent)
    requires Reported(st, st', row) || (|st'.desired| == |st.desired| + 1 && LinkedAs(st, st', row, st'.desired[|st.desired|]))
    ensures LinkIds(st'.desired) + ConflictIds(st'.conflicts) == LinkIds(st.desired) + ConflictIds(st.conflicts) + multiset{row.id}
  {
  }

  /** The ids in the two lists after the first `k` rows. */
  function IdsAt(n: Naming, orgs: seq<OrgAgent>, rows: seq<ProjectAgent>, k: nat): multiset<nat> {
    if k > |rows| then multiset{}
    else
      var st := PlaceAgents(n, ClaimOrgs(n, orgs), rows, k);
      LinkIds(st.desired) + ConflictIds(st.conflicts)
  }

  lemma {:induction false} RowMovesOneId(n: Naming, orgs: seq<OrgAgent>, rows: seq<ProjectAgent>, k: nat)
    requires k < |rows|
    ensures IdsAt(n, orgs, rows, k + 1) == IdsAt(n, orgs, rows, k) + multiset{rows[k].id}
  {
    RowOutcome(n, orgs, rows, k);
    StepMovesOneId(PlaceAgents(n, ClaimOrgs(n, orgs), rows, k), PlaceAgents(n, ClaimOrgs(n, orgs), rows, k + 1), rows[k]);
  }

  lemma {:induction false} NoIdsAtFirst(n: Naming, orgs: seq<OrgAgent>, rows: seq<ProjectAgent>)
    ensures IdsAt(n, orgs, rows, 0) == multiset{}
  {
    OrgsHaveNoRowIds(n, orgs);
  }

  lemma {:induction false} IdsAddUp(ids: nat -> multiset<nat>, rows: seq<ProjectAgent>, k: nat)
    requires k <= |rows| && ids(0) == multiset{}
    requires forall i: nat | i < |rows| :: ids(i + 1) == ids(i) + multiset{rows[i].id}
    ensures ids(k) == RowIds(rows[..k])
  {
    if k > 0 {
      IdsAddUp(ids, rows, k - 1);
      assert rows[..k][..k - 1] == rows[..k - 1];
      assert ids(k - 1 + 1) == ids(k - 1) + multiset{rows[k - 1].id};
    }
  }

  /** Every project agent lands in exactly one of the two lists, once. */
  lemma {:induction false} RowsArePartitioned(n: Naming, orgs: seq<OrgAgent>, rows: seq<ProjectAgent>)
    ensures var st := Allocate(n, orgs, rows);
      LinkIds(st.desired) + ConflictIds(st.conflicts) == RowIds(rows)
  {
    var ids: nat -> multiset<nat> := k => IdsAt(n, orgs, rows, k);
    NoIdsAtFirst(n, orgs, rows);
    forall k: nat | k < |rows|
      ensures ids(k + 1) == ids(k) + multiset{rows[k].id}
    {
      RowMovesOneId(n, orgs, rows, k);
    }
    IdsAddUp(ids, rows, |rows|);
    assert rows[..|rows|] == rows;
  }

  lemma {:induction false} ClaimantsSplit(a: seq<ProjectAgent>, b: seq<ProjectAgent>, name: string)
    ensures Claimants(a + b, name) == Claimants(a, name) + Claimants(b, name)
  {
    if b == [] {
      assert a + b == a;
    } else {
      assert (a + b)[..|a + b| - 1] == a + b[..|b| - 1];
      ClaimantsSplit(a, b[..|b| - 1], name);
    }
  }

  /** Taking one occurrence out of the middle. */
  lemma {:induction false} WithoutOne(rows: seq<ProjectAgent>, j: nat, name: string)
    requires j < |rows|
    ensures multiset(rows[..j] + rows[j + 1..]) == multiset(rows) - multiset{rows[j]}
    ensures Claimants(rows, name) == Claimants(rows[..j] + rows[j + 1..], name) + if rows[j].name == name then 1 else 0
  {
    var front, back := rows[..j], rows[j + 1..];
    assert rows == (front + [rows[j]]) + back;
    ClaimantsSplit(front, back, name);
    ClaimantsSplit(front + [rows[j]], back, name);
    assert (front + [rows[j]])[..j] == front;
  }

  /** The first pass's counts do not depend on the order the projects were imported in. */
  lemma {:induction false} ClaimantsIgnoreOrder(rows: seq<ProjectAgent>, rows': seq<ProjectAgent>, name: string)
    requires multiset(rows) == multiset(rows')
    ensures Claimants(rows, name) == Claimants(rows', name)
    decreases |rows|
  {
    if rows == [] {
      assert |multiset(rows')| == 0;
    } else {
      assert rows[0] in multiset(rows');
      var j :| 0 <= j < |rows'| && rows'[j] == rows[0];
      WithoutOne(rows, 0, name);
      WithoutOne(rows', j, name);
      ClaimantsIgnoreOrder(rows[..0] + rows[1..], rows'[..j] + rows'[j + 1..], name);
    }
  }

  // The module's own comment names a row without a frontmatter `name:` as the only one that can go unnamed. It is not the only one.

  lemma {:induction false} ClaimantsOfFour(a: ProjectAgent, b: ProjectAgent, c: ProjectAgent, d: ProjectAgent, name: string)
    ensures Claimants([a, b, c, d], name) == (if a.name == name then 1 else 0) + (if b.name == name then 1 else 0)
                                           + (if c.name == name then 1 else 0) + (if d.name == name then 1 else 0)
  {
    assert [a, b, c, d][..3] == [a, b, c] && [a, b, c][..2] == [a, b] && [a, b][..1] == [a] && [a][..0] == [];
    assert Claimants([a], name) == if a.name == name then 1 else 0;
    assert Claimants([a, b], name) == Claimants([a], name) + if b.name == name then 1 else 0;
    assert Claimants([a, b, c], name) == Claimants([a, b], name) + if c.name == name then 1 else 0;
    assert Claimants([a, b, c, d], name) == Claimants([a, b, c], name) + if d.name == name then 1 else 0;
  }

  /** Only the declared name is tried, under at least two filenames. */
  ghost predicate TriesOnlyItsName(n: Naming, row: ProjectAgent) {
    var attempts := n.attempts(row, false);
    && |attempts| >= 2 && attempts[0].filename != attempts[1].filename
    && forall a | a in attempts :: a.invocable == row.name
  }

  /** With at most one filename taken, an unclaimed row that tries only its own name claims it. */
  lemma {:induction false} BareRowClaims(n: Naming, st: State, row: ProjectAgent)
    requires TriesOnlyItsName(n, row) && row.name !in st.claimed && |st.seen| <= 1
    ensures var st' := AgentStep(n, st, row, 1);
      && st'.claimed.Keys == st.claimed.Keys + {row.name}
      && st'.conflicts == st.conflicts
      && |st'.seen| <= |st.seen| + 1
  {
    var attempts := n.attempts(row, false);
    assert attempts[0] in attempts && attempts[1] in attempts;
    OneOfTwoIsFree(attempts[0].filename, attempts[1].filename, st.seen);
  }

  lemma {:induction false} OneOfTwoIsFree(x: string, y: string, taken: set<string>)
    requires x != y && |taken| <= 1
    ensures x !in taken || y !in taken
  {
    if x in taken {
      assert |taken - {x}| == |taken| - 1;
      assert taken - {x} == {};
    }
  }

  lemma {:induction false} FirstTwoClaim(n: Naming, rows: seq<ProjectAgent>)
    requires |rows| >= 2 && rows[0].name != rows[1].name
    requires Claimants(rows, rows[0].name) == 1 && Claimants(rows, rows[1].name) == 1
    requires TriesOnlyItsName(n, rows[0]) && TriesOnlyItsName(n, rows[1])
    ensures var st := PlaceAgents(n, START, rows, 2);
      st.conflicts == [] && st.claimed.Keys == {rows[0].name, rows[1].name}
  {
    var st1 := PlaceAgents(n, START, rows, 1);
    BareRowClaims(n, START, rows[0]);
    assert PlaceAgents(n, START, rows, 0) == START;
    assert st1 == AgentStep(n, START, rows[0], 1);
    BareRowClaims(n, st1, rows[1]);
    assert PlaceAgents(n, START, rows, 2) == AgentStep(n, st1, rows[1], 1);
  }

  /** When two earlier agents answer to both spellings left to a contested row, the row is reported. */
  lemma {:induction false} SqueezedOut(n: Naming, a: ProjectAgent, b: ProjectAgent, row: ProjectAgent, twin: ProjectAgent)
    requires a.name != b.name && row.name != a.name && row.name != b.name && twin.name == row.name
    requires TriesOnlyItsName(n, a) && TriesOnlyItsName(n, b)
    requires forall attempt | attempt in n.attempts(row, true) :: attempt.invocable == a.name || attempt.invocable == b.name
    ensures PlaceAgents(n, START, [a, b, row, twin], 3).conflicts == [Conflict(row.id, row.name, row.project, ProjectOwner(row.project))]
  {
    var rows := [a, b, row, twin];
    ClaimantsOfFour(a, b, row, twin, a.name);
    ClaimantsOfFour(a, b, row, twin, b.name);
    ClaimantsOfFour(a, b, row, twin, row.name);
    FirstTwoClaim(n, rows);
    var st := PlaceAgents(n, START, rows, 2);
    forall attempt | attempt in n.attempts(row, true)
      ensures !Free(st, attempt)
    {
      assert attempt.invocable in st.claimed.Keys;
    }
    assert row.name !in st.claimed.Keys;
    assert PlaceAgents(n, START, rows, 3) == AgentStep(n, st, row, 2);
  }

  lemma {:induction false} BareAttempts(u: Unicode, row: ProjectAgent)
    ensures TriesOnlyItsName(Spelling(u), row)
  {
    var safe, slug := SafeName(row.name), ProjectSlug(u, row.project);
    assert Spelling(u).attempts(row, false) == Attempts(u, row, false);
    assert |AliasName(slug, safe)| > |safe|;
  }

  lemma {:induction false} ContestedSpellings(u: Unicode, row: ProjectAgent)
    requires row.aliasable
    ensures var slug, safe := ProjectSlug(u, row.project), SafeName(row.name);
      && AliasName(slug, safe) != AliasWithId(slug, safe, row.id)
      && forall a | a in Spelling(u).attempts(row, true) ::
           a.invocable == AliasName(slug, safe) || a.invocable == AliasWithId(slug, safe, row.id)
  {
  }

  /** Two agents whose declared names happen to be the row's two aliases, then the row, then a namesake: the row, aliasable
      though it is, is reported as a conflict. */
  lemma {:induction false} AliasableRowCanGoUnnamed(u: Unicode, row: ProjectAgent, project: string, id: nat)
    requires u.Sane() && row.aliasable
    ensures var slug, safe := ProjectSlug(u, row.project), SafeName(row.name);
      var rows := [ProjectAgent(id, AliasName(slug, safe), project, true, ""),
                   ProjectAgent(id + 1, AliasWithId(slug, safe, row.id), project, true, ""),
                   row,
                   ProjectAgent(id + 2, row.name, project, true, "")];
      PlaceAgents(Spelling(u), START, rows, 3).conflicts == [Conflict(row.id, row.name, row.project, ProjectOwner(row.project))]
  {
    var slug, safe := ProjectSlug(u, row.project), SafeName(row.name);
    var a := ProjectAgent(id, AliasName(slug, safe), project, true, "");
    var b := ProjectAgent(id + 1, AliasWithId(slug, safe, row.id), project, true, "");
    AliasIsNeverTheDeclaredName(u, row.project, row.name, row.id);
    ContestedSpellings(u, row);
    BareAttempts(u, a);
    BareAttempts(u, b);
    SqueezedOut(Spelling(u), a, b, row, ProjectAgent(id + 2, row.name, project, true, ""));
  }
}
