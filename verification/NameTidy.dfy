/** The allocation of names that need no cleaning: when the order of the rows matters, in plain words. */
module NameTidy {
  import opened Text
  import opened AliasSeam
  import opened NameAllocator
  import opened NameLaws
  import opened NameOrder
  import opened NameOutcome

  /** Every declared name is its own safe name. */
  ghost predicate AllTidy(orgs: seq<OrgAgent>, rows: seq<ProjectAgent>) {
    && (forall o | o in orgs :: SafeName(o.name) == o.name)
    && forall r | r in rows :: SafeName(r.name) == r.name
  }

  /** Two rows of one name, of which both can carry an alias and have one slug, or neither can and no org agent has the name. */
  ghost predicate Twins(u: Unicode, orgs: seq<OrgAgent>, r: ProjectAgent, q: ProjectAgent) {
    && r.name == q.name && r.aliasable == q.aliasable
    && if r.aliasable then ProjectSlug(u, r.project) == ProjectSlug(u, q.project) else r.name !in OrgNames(orgs)
  }

  lemma {:induction false} TidyClashIff(u: Unicode, orgs: seq<OrgAgent>, rows: seq<ProjectAgent>, r: ProjectAgent, q: ProjectAgent)
    requires u.Sane() && AllTidy(orgs, rows) && r in rows && q in rows && r != q && DistinctIds(rows)
    ensures Clash(FirstChoice(Spelling(u), orgs, rows, r), FirstChoice(Spelling(u), orgs, rows, q)) <==> Twins(u, orgs, r, q)
  {
    TidyChoiceIs(u, orgs, rows, r);
    TidyChoiceIs(u, orgs, rows, q);
    NamesakesClaimTwice(rows, r, q);
    TidySpellings(u, r, q);
  }

  lemma {:induction false} NamesakesClaimTwice(rows: seq<ProjectAgent>, r: ProjectAgent, q: ProjectAgent)
    requires r in rows && q in rows && r != q
    ensures r.name == q.name ==> Claimants(rows, r.name) > 1
  {
    var i :| 0 <= i < |rows| && rows[i] == r;
    var j :| 0 <= j < |rows| && rows[j] == q;
    if r.name == q.name {
      TwoClaim(rows, if i < j then i else j, if i < j then j else i);
    }
  }

  lemma {:induction false} TidyChoiceIs(u: Unicode, orgs: seq<OrgAgent>, rows: seq<ProjectAgent>, row: ProjectAgent)
    requires u.Sane() && AllTidy(orgs, rows) && row in rows
    ensures var alias := AliasName(ProjectSlug(u, row.project), row.name);
      FirstChoice(Spelling(u), orgs, rows, row) ==
      if row.aliasable && ClaimedTwice(orgs, rows, row) then Some(Attempt(alias, alias + ".md"))
      else if row.name in OrgNames(orgs) then None
      else Some(Attempt(row.name, row.name + ".md"))
  {
    FirstChoiceIs(u, orgs, rows, row);
    ProjectSlugIsClean(u, row.project);
    SafeNameIsClean(row.name);
    TidyOrgs(u, orgs, ProjectSlug(u, row.project), row.name);
  }

  lemma {:induction false} TidyOrg(u: Unicode, orgs: seq<OrgAgent>, i: nat)
    requires i < |orgs| && SafeName(orgs[i].name) == orgs[i].name
    ensures OrgFilenames(Spelling(u), orgs)[i] == OrgNames(orgs)[i] + ".md" && Clean(OrgNames(orgs)[i])
  {
    SafeNameIsClean(orgs[i].name);
    assert Spelling(u).orgFilename(orgs[i].name) == OrgFilename(orgs[i].name);
  }

  /** Tidy org agents bear no alias, and a filename of theirs is the name of one of them. */
  lemma {:induction false} TidyOrgs(u: Unicode, orgs: seq<OrgAgent>, slug: string, name: string)
    requires Clean(slug) && Clean(name) && forall o | o in orgs :: SafeName(o.name) == o.name
    ensures AliasName(slug, name) !in OrgNames(orgs)
    ensures name + ".md" in OrgFilenames(Spelling(u), orgs) <==> name in OrgNames(orgs)
  {
    SplitInvertsAlias(slug, name);
    forall i | 0 <= i < |orgs|
      ensures OrgFilenames(Spelling(u), orgs)[i] == OrgNames(orgs)[i] + ".md" && Clean(OrgNames(orgs)[i])
    {
      assert orgs[i] in orgs;
      TidyOrg(u, orgs, i);
    }
    NamesAndFiles(OrgNames(orgs), OrgFilenames(Spelling(u), orgs), name);
  }

  lemma {:induction false} NamesAndFiles(names: seq<string>, files: seq<string>, name: string)
    requires |names| == |files| && forall i | 0 <= i < |names| :: files[i] == names[i] + ".md"
    ensures name + ".md" in files <==> name in names
  {
    if name + ".md" in files {
      var i :| 0 <= i < |files| && files[i] == name + ".md";
      SameStem(names[i], name);
    }
    if name in names {
      var i :| 0 <= i < |names| && names[i] == name;
      assert files[i] in files;
    }
  }

  lemma {:induction false} TidySpellings(u: Unicode, r: ProjectAgent, q: ProjectAgent)
    requires u.Sane() && SafeName(r.name) == r.name && SafeName(q.name) == q.name
    ensures var x, y := AliasName(ProjectSlug(u, r.project), r.name), AliasName(ProjectSlug(u, q.project), q.name);
      && (x == y <==> ProjectSlug(u, r.project) == ProjectSlug(u, q.project) && r.name == q.name)
      && x != q.name && y != r.name
      && (x + ".md" == y + ".md" <==> x == y) && (r.name + ".md" == q.name + ".md" <==> r.name == q.name)
      && x + ".md" != q.name + ".md" && y + ".md" != r.name + ".md"
  {
    var x, y := AliasName(ProjectSlug(u, r.project), r.name), AliasName(ProjectSlug(u, q.project), q.name);
    ProjectSlugIsClean(u, r.project);
    ProjectSlugIsClean(u, q.project);
    SafeNameIsClean(r.name);
    SafeNameIsClean(q.name);
    SplitInvertsAlias(ProjectSlug(u, r.project), r.name);
    SplitInvertsAlias(ProjectSlug(u, q.project), q.name);
    SameStem(x, y);
    SameStem(r.name, q.name);
    SameStem(x, q.name);
    SameStem(y, r.name);
  }

  ghost predicate NoTwins(u: Unicode, orgs: seq<OrgAgent>, rows: seq<ProjectAgent>) {
    forall r, q | r in rows && q in rows && r != q :: !Twins(u, orgs, r, q)
  }

  lemma {:induction false} TidyNoClashIff(u: Unicode, orgs: seq<OrgAgent>, rows: seq<ProjectAgent>)
    requires u.Sane() && AllTidy(orgs, rows) && DistinctIds(rows)
    ensures NoClash(Spelling(u), orgs, rows) <==> NoTwins(u, orgs, rows)
  {
    if NoTwins(u, orgs, rows) {
      forall r, q | r in rows && q in rows && r != q
        ensures !Clash(FirstChoice(Spelling(u), orgs, rows, r), FirstChoice(Spelling(u), orgs, rows, q))
      {
        TidyClashIff(u, orgs, rows, r, q);
      }
    } else {
      var r, q :| r in rows && q in rows && r != q && Twins(u, orgs, r, q);
      TidyClashIff(u, orgs, rows, r, q);
    }
  }

  /** When every declared name is its own safe name, the order matters exactly when there are twins. */
  lemma {:induction false} TidyOrderMattersIff(u: Unicode, orgs: seq<OrgAgent>, rows: seq<ProjectAgent>)
    requires u.Sane() && AllTidy(orgs, rows) && DistinctIds(rows)
    ensures SameInEveryOrder(Spelling(u), orgs, rows) <==> NoTwins(u, orgs, rows)
  {
    OutcomeIgnoresOrderIff(u, orgs, rows);
    TidyNoClashIff(u, orgs, rows);
  }
}
