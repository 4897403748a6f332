/** Handing out invocable names and filenames to org agents and project agents. */
module NameAllocator {
  import opened Text
  import opened AliasSeam

  datatype OrgAgent = OrgAgent(id: nat, name: string, installPath: string)

  /** A shared project agent; `aliasable` when its file declares a frontmatter `name:` that can be rewritten. */
  datatype ProjectAgent = ProjectAgent(id: nat, name: string, project: string, aliasable: bool, canonicalPath: string)

  datatype Owner = OrgOwner | ProjectOwner(project: string)

  datatype Link = Link(ofOrg: bool, rowId: nat, filename: string, alias: string, materialize: bool, canonicalPath: string)

  datatype Conflict = Conflict(rowId: nat, name: string, project: string, shadowedBy: Owner)

  datatype State = State(desired: seq<Link>, conflicts: seq<Conflict>, claimed: map<string, Owner>, seen: set<string>)

  const START := State([], [], map[], {})

  datatype Attempt = Attempt(invocable: string, filename: string)

  /** How names are spelled: an org agent's filename, and the spellings tried for a project agent. */
  datatype Naming = Naming(orgFilename: string -> string, attempts: (ProjectAgent, bool) -> seq<Attempt>)

  function OrgFilename(name: string): string {
    SafeName(name) + ".md"
  }

  function Attempts(u: Unicode, row: ProjectAgent, contested: bool): seq<Attempt> {
    var safe, slug := SafeName(row.name), ProjectSlug(u, row.project);
    if contested && row.aliasable then
      [Attempt(AliasName(slug, safe), AliasName(slug, safe) + ".md"),
       Attempt(AliasWithId(slug, safe, row.id), AliasWithId(slug, safe, row.id) + ".md")]
    else
      [Attempt(row.name, safe + ".md"),
       Attempt(row.name, AliasName(slug, safe) + ".md"),
       Attempt(row.name, AliasWithId(slug, safe, row.id) + ".md")]
  }

  function Spelling(u: Unicode): Naming {
    Naming(OrgFilename, (row, contested) => Attempts(u, row, contested))
  }

  function OrgStep(n: Naming, st: State, org: OrgAgent): State {
    var filename := n.orgFilename(org.name);
    State(st.desired + [Link(true, org.id, filename, org.name, false, org.installPath)], st.conflicts,
          st.claimed[org.name := OrgOwner], st.seen + {filename})
  }

  function ClaimOrgs(n: Naming, orgs: seq<OrgAgent>): State {
    if orgs == [] then START else OrgStep(n, ClaimOrgs(n, orgs[..|orgs| - 1]), orgs[|orgs| - 1])
  }

  /** How many rows declare this name. */
  function Claimants(rows: seq<ProjectAgent>, name: string): nat {
    if rows == [] then 0
    else Claimants(rows[..|rows| - 1], name) + if rows[|rows| - 1].name == name then 1 else 0
  }

  predicate Free(st: State, a: Attempt) {
    a.invocable !in st.claimed && a.filename !in st.seen
  }

  function FirstFree(st: State, attempts: seq<Attempt>): (chosen: Option<Attempt>)
    ensures chosen.None? <==> forall a | a in attempts :: !Free(st, a)
    ensures chosen.Some? ==> chosen.value in attempts && Free(st, chosen.value)
  {
    if attempts == [] then None
    else if Free(st, attempts[0]) then Some(attempts[0])
    else FirstFree(st, attempts[1..])
  }

  predicate Contested(st: State, row: ProjectAgent, claimants: nat) {
    claimants > 1 || row.name in st.claimed
  }

  function AgentStep(n: Naming, st: State, row: ProjectAgent, claimants: nat): State {
    match FirstFree(st, n.attempts(row, Contested(st, row, claimants)))
    case None =>
      var owner := if row.name in st.claimed then st.claimed[row.name] else ProjectOwner(row.project);
      st.(conflicts := st.conflicts + [Conflict(row.id, row.name, row.project, owner)])
    case Some(chosen) =>
      State(st.desired + [Link(false, row.id, chosen.filename, chosen.invocable, chosen.invocable != row.name, row.canonicalPath)],
            st.conflicts, st.claimed[chosen.invocable := ProjectOwner(row.project)], st.seen + {chosen.filename})
  }

  /** The state after the first `k` project agents. */
  function PlaceAgents(n: Naming, start: State, rows: seq<ProjectAgent>, k: nat): State
    requires k <= |rows|
  {
    if k == 0 then start
    else AgentStep(n, PlaceAgents(n, start, rows, k - 1), rows[k - 1], Claimants(rows, rows[k - 1].name))
  }

  /** The agents' half of `_collect_desired_links`. */
  function Allocate(n: Naming, orgs: seq<OrgAgent>, rows: seq<ProjectAgent>): State {
    PlaceAgents(n, ClaimOrgs(n, orgs), rows, |rows|)
  }

  /** The running state of `_collect_desired_links`. */
  class Collector {
    var desired: seq<Link>
    var conflicts: seq<Conflict>
    var claimedNames: map<string, Owner>
    var seenFilenames: set<string>

    function Now(): State
      reads this
    {
      State(desired, conflicts, claimedNames, seenFilenames)
    }

    constructor ()
      ensures Now() == START
    {
      desired, conflicts, claimedNames, seenFilenames := [], [], map[], {};
    }

    method Collect(n: Naming, orgs: seq<OrgAgent>, rows: seq<ProjectAgent>)
      requires Now() == START
      modifies this
      ensures Now() == Allocate(n, orgs, rows)
    {
      ClaimOrgAgents(n, orgs);
      PlaceProjectAgents(n, rows);
    }

    method ClaimOrgAgents(n: Naming, orgs: seq<OrgAgent>)
      requires Now() == START
      modifies this
      ensures Now() == ClaimOrgs(n, orgs)
    {
      var i := 0;
      while i < |orgs|
        invariant 0 <= i <= |orgs|
        invariant Now() == ClaimOrgs(n, orgs[..i])
      {
        var org := orgs[i];
        var filename := n.orgFilename(org.name);
        seenFilenames := seenFilenames + {filename};
        claimedNames := claimedNames[org.name := OrgOwner];
        desired := desired + [Link(true, org.id, filename, org.name, false, org.installPath)];
        assert orgs[..i + 1][..i] == orgs[..i];
        i := i + 1;
      }
      assert orgs[..i] == orgs;
    }

    method PlaceProjectAgents(n: Naming, rows: seq<ProjectAgent>)
      modifies this
      ensures Now() == PlaceAgents(n, old(Now()), rows, |rows|)
    {
      var claimants := CountClaimants(rows);
      var k := 0;
      while k < |rows|
        invariant 0 <= k <= |rows|
        invariant Now() == PlaceAgents(n, old(Now()), rows, k)
      {
        var row := rows[k];
        ghost var before := Now();
        assert row in rows;
        var contested := claimants[row.name] > 1 || row.name in claimedNames;
        var chosen := FirstFree(Now(), n.attempts(row, contested));
        if chosen.None? {
          var owner := if row.name in claimedNames then claimedNames[row.name] else ProjectOwner(row.project);
          conflicts := conflicts + [Conflict(row.id, row.name, row.project, owner)];
        } else {
          var Attempt(invocable, filename) := chosen.value;
          claimedNames := claimedNames[invocable := ProjectOwner(row.project)];
          seenFilenames := seenFilenames + {filename};
          desired := desired + [Link(false, row.id, filename, invocable, invocable != row.name, row.canonicalPath)];
        }
        assert Now() == AgentStep(n, before, row, Claimants(rows, row.name));
        k := k + 1;
      }
    }
  }

  /** The first pass: who claims each name. */
  method CountClaimants(rows: seq<ProjectAgent>) returns (claimants: map<string, nat>)
    ensures forall row | row in rows :: row.name in claimants && claimants[row.name] == Claimants(rows, row.name)
  {
    claimants := map[];
    var i := 0;
    while i < |rows|
      invariant 0 <= i <= |rows|
      invariant forall name :: (if name in claimants then claimants[name] else 0) == Claimants(rows[..i], name)
      invariant forall row | row in rows[..i] :: row.name in claimants
    {
      assert rows[..i + 1][..i] == rows[..i];
      var name := rows[i].name;
      claimants := claimants[name := (if name in claimants then claimants[name] else 0) + 1];
      i := i + 1;
    }
    assert rows[..i] == rows;
  }
}
