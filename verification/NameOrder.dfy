/** What the order of the rows can change in the allocation, and which rows can go unnamed, told from the rows themselves. */
module NameOrder {
  import opened Text
  import opened AliasSeam
  import opened NameAllocator
  import opened NameLaws

  /** The state in which row `k` is placed. */
  function After(n: Naming, orgs: seq<OrgAgent>, rows: seq<ProjectAgent>, k: nat): State
    requires k <= |rows|
  {
    PlaceAgents(n, ClaimOrgs(n, orgs), rows, k)
  }

  ghost predicate ContestedAt(n: Naming, orgs: seq<OrgAgent>, rows: seq<ProjectAgent>, k: nat)
    requires k < |rows|
  {
    Contested(After(n, orgs, rows, k), rows[k], Claimants(rows, rows[k].name))
  }

  ghost predicate ReportedAt(n: Naming, orgs: seq<OrgAgent>, rows: seq<ProjectAgent>, k: nat)
    requires k < |rows|
  {
    Reported(After(n, orgs, rows, k), After(n, orgs, rows, k + 1), rows[k])
  }

  // What is behind each name that is taken.

  /** Only a contested aliasable row is spelled otherwise than by its name. */
  ghost predicate RenamesContested(n: Naming) {
    forall row, contested, a | a in n.attempts(row, contested) :: a.invocable != row.name <==> contested && row.aliasable
  }

  lemma {:induction false} SpellingRenames(u: Unicode)
    requires u.Sane()
    ensures RenamesContested(Spelling(u))
  {
    forall row, contested, a | a in Spelling(u).attempts(row, contested)
      ensures a.invocable != row.name <==> contested && row.aliasable
    {
      AttemptsAreSpelled(u, row, contested, a);
    }
  }

  /** One of the aliases the row would be given. */
  ghost predicate Generates(n: Naming, row: ProjectAgent, name: string) {
    row.aliasable && exists a | a in n.attempts(row, true) :: a.invocable == name
  }

  /** The row, if linked, may be linked under its bare name. */
  ghost predicate StaysBare(orgs: seq<OrgAgent>, rows: seq<ProjectAgent>, row: ProjectAgent) {
    !row.aliasable || !ClaimedTwice(orgs, rows, row)
  }

  ghost predicate Explained(n: Naming, orgs: seq<OrgAgent>, rows: seq<ProjectAgent>, k: nat, link: Link)
    requires k <= |rows|
  {
    if link.materialize then exists j | 0 <= j < k :: Generates(n, rows[j], link.alias)
    else link.alias in OrgNames(orgs) || exists j | 0 <= j < k :: rows[j].name == link.alias && StaysBare(orgs, rows, rows[j])
  }

  ghost predicate AllExplained(n: Naming, orgs: seq<OrgAgent>, rows: seq<ProjectAgent>, k: nat, links: seq<Link>)
    requires k <= |rows|
  {
    forall link | link in links :: Explained(n, orgs, rows, k, link)
  }

  lemma {:induction false} OrgLinksAreBare(n: Naming, orgs: seq<OrgAgent>)
    ensures forall link | link in ClaimOrgs(n, orgs).desired :: !link.materialize && link.alias in OrgNames(orgs)
  {
    if orgs != [] {
      OrgLinksAreBare(n, orgs[..|orgs| - 1]);
      OrgListsGrow(n, orgs);
    }
  }

  lemma {:induction false} LinkIsExplained(n: Naming, orgs: seq<OrgAgent>, rows: seq<ProjectAgent>, k: nat)
    requires RenamesContested(n) && k < |rows|
    ensures var st, st' := After(n, orgs, rows, k), After(n, orgs, rows, k + 1);
      st'.desired == st.desired
      || (|st'.desired| > |st.desired| && var link := st'.desired[|st.desired|];
          st'.desired == st.desired + [link] && Explained(n, orgs, rows, k + 1, link))
  {
    RowOutcome(n, orgs, rows, k);
    var st, st' := After(n, orgs, rows, k), After(n, orgs, rows, k + 1);
    if !ReportedAt(n, orgs, rows, k) {
      var link := st'.desired[|st.desired|];
      assert Attempt(link.alias, link.filename) in n.attempts(rows[k], ContestedAt(n, orgs, rows, k));
      if link.materialize {
        assert Generates(n, rows[k], link.alias);
      } else {
        assert rows[k].name == link.alias && StaysBare(orgs, rows, rows[k]);
      }
    }
  }

  lemma {:induction false} LinksAreExplained(n: Naming, orgs: seq<OrgAgent>, rows: seq<ProjectAgent>, k: nat)
    requires RenamesContested(n) && k <= |rows|
    ensures AllExplained(n, orgs, rows, k, After(n, orgs, rows, k).desired)
  {
    if k == 0 {
      OrgLinksAreBare(n, orgs);
    } else {
      LinksAreExplained(n, orgs, rows, k - 1);
      LinkIsExplained(n, orgs, rows, k - 1);
    }
  }

  /** A name taken when row `k` is placed has an org agent behind it, an earlier row that keeps its bare name, or an earlier row
      that generates it. */
  lemma {:induction false} ClaimedIsExplained(n: Naming, orgs: seq<OrgAgent>, rows: seq<ProjectAgent>, k: nat, name: string)
    requires RenamesContested(n) && k <= |rows|
    ensures name in After(n, orgs, rows, k).claimed <==> exists link | link in After(n, orgs, rows, k).desired :: link.alias == name
    ensures name in After(n, orgs, rows, k).claimed ==>
              || name in OrgNames(orgs)
              || (exists j | 0 <= j < k :: rows[j].name == name && StaysBare(orgs, rows, rows[j]))
              || exists j | 0 <= j < k :: Generates(n, rows[j], name)
  {
    var st := After(n, orgs, rows, k);
    OrgsAreClaimed(n, orgs);
    PlacementKeepsNames(n, ClaimOrgs(n, orgs), rows, k);
    LinksAreExplained(n, orgs, rows, k);
    if name in st.claimed {
      var i :| 0 <= i < |st.desired| && Aliases(st.desired)[i] == name;
      assert st.desired[i] in st.desired && st.desired[i].alias == name;
      assert Explained(n, orgs, rows, k, st.desired[i]);
    }
    if link :| link in st.desired && link.alias == name {
      var i :| 0 <= i < |st.desired| && st.desired[i] == link;
      assert Aliases(st.desired)[i] == name;
    }
  }

  // Being contested.

  lemma {:induction false} ClaimantCounts(rows: seq<ProjectAgent>, k: nat)
    requires k < |rows|
    ensures Claimants(rows, rows[k].name) >= 1
  {
    WithoutOne(rows, k, rows[k].name);
  }

  lemma {:induction false} TwoClaim(rows: seq<ProjectAgent>, j: nat, k: nat)
    requires j < k < |rows| && rows[j].name == rows[k].name
    ensures Claimants(rows, rows[k].name) >= 2
  {
    WithoutOne(rows, k, rows[k].name);
    var rest := rows[..k] + rows[k + 1..];
    assert rest[j] == rows[j];
    ClaimantCounts(rest, j);
  }

  /** An alias made for an earlier row is this very name. */
  ghost predicate GeneratedBefore(st: State, name: string) {
    exists link | link in st.desired :: link.materialize && link.alias == name
  }

  /** A row is contested for one of two reasons: its name is claimed twice, which no order changes, or it is the alias an earlier
      row was given, which an order can change. */
  lemma {:induction false} ContestedIff(n: Naming, orgs: seq<OrgAgent>, rows: seq<ProjectAgent>, k: nat)
    requires RenamesContested(n) && k < |rows|
    ensures ContestedAt(n, orgs, rows, k) <==>
            ClaimedTwice(orgs, rows, rows[k]) || GeneratedBefore(After(n, orgs, rows, k), rows[k].name)
  {
    var st, name := After(n, orgs, rows, k), rows[k].name;
    RowOutcome(n, orgs, rows, k);
    ClaimedIsExplained(n, orgs, rows, k, name);
    LinksAreExplained(n, orgs, rows, k);
    if name in st.claimed && !GeneratedBefore(st, name) {
      var link :| link in st.desired && link.alias == name;
      assert Explained(n, orgs, rows, k, link);
      if name !in OrgNames(orgs) {
        var j :| 0 <= j < k && rows[j].name == name;
        TwoClaim(rows, j, k);
      }
    }
  }

  lemma {:induction false} GeneratedHasSource(n: Naming, orgs: seq<OrgAgent>, rows: seq<ProjectAgent>, k: nat, name: string)
    requires RenamesContested(n) && k <= |rows| && GeneratedBefore(After(n, orgs, rows, k), name)
    ensures exists r | r in rows :: Generates(n, r, name)
  {
    LinksAreExplained(n, orgs, rows, k);
    var link :| link in After(n, orgs, rows, k).desired && link.materialize && link.alias == name;
    assert Explained(n, orgs, rows, k, link);
    var j :| 0 <= j < k && Generates(n, rows[j], link.alias);
    assert rows[j] in rows;
  }

  /** A row whose name is no row's alias is contested alike in every order of the rows. */
  lemma {:induction false} ContestedInEveryOrder(n: Naming, orgs: seq<OrgAgent>, rows: seq<ProjectAgent>, k: nat,
          rows': seq<ProjectAgent>, k': nat)
    requires RenamesContested(n) && multiset(rows) == multiset(rows')
    requires k < |rows| && k' < |rows'| && rows[k] == rows'[k']
    requires forall r | r in rows :: !Generates(n, r, rows[k].name)
    ensures ContestedAt(n, orgs, rows, k) <==> ContestedAt(n, orgs, rows', k')
  {
    var name := rows[k].name;
    ContestedIff(n, orgs, rows, k);
    ContestedIff(n, orgs, rows', k');
    ClaimantsIgnoreOrder(rows, rows', name);
    forall r | r in rows'
      ensures r in rows
    {
      assert r in multiset(rows');
    }
    if GeneratedBefore(After(n, orgs, rows, k), name) {
      GeneratedHasSource(n, orgs, rows, k, name);
    }
    if GeneratedBefore(After(n, orgs, rows', k'), name) {
      GeneratedHasSource(n, orgs, rows', k', name);
    }
  }

  lemma {:induction false} AliasIsNoFilename(name: string, slug: string, tail: string)
    requires Clean(slug) && Clean(tail)
    ensures SafeName(name) + ".md" != AliasName(slug, tail) + ".md"
  {
    SplitInvertsAlias(slug, tail);
    SafeNameIsClean(name);
    SameStem(SafeName(name), AliasName(slug, tail));
  }

  lemma {:induction false} AliasIsNoOrgFilename(u: Unicode, orgs: seq<OrgAgent>, slug: string, tail: string)
    requires Clean(slug) && Clean(tail)
    ensures AliasName(slug, tail) + ".md" !in OrgFilenames(Spelling(u), orgs)
  {
    forall i | 0 <= i < |orgs|
      ensures OrgFilenames(Spelling(u), orgs)[i] != AliasName(slug, tail) + ".md"
    {
      AliasIsNoFilename(orgs[i].name, slug, tail);
      assert Spelling(u).orgFilename(orgs[i].name) == OrgFilename(orgs[i].name);
    }
  }

  lemma {:induction false} SameStem(a: string, b: string)
    ensures a + ".md" == b + ".md" <==> a == b
  {
    assert (a + ".md")[..|a + ".md"| - 3] == a && (b + ".md")[..|b + ".md"| - 3] == b;
  }

  /** A twice-claimed aliasable row that comes first is given its plain alias, if no org agent bears it. */
  lemma {:induction false} FirstTakesItsAlias(u: Unicode, orgs: seq<OrgAgent>, rows: seq<ProjectAgent>)
    requires u.Sane() && rows != [] && rows[0].aliasable && ClaimedTwice(orgs, rows, rows[0])
    requires AliasName(ProjectSlug(u, rows[0].project), SafeName(rows[0].name)) !in OrgNames(orgs)
    ensures AliasName(ProjectSlug(u, rows[0].project), SafeName(rows[0].name)) in After(Spelling(u), orgs, rows, 1).claimed
  {
    var n, row := Spelling(u), rows[0];
    var slug, safe := ProjectSlug(u, row.project), SafeName(row.name);
    OrgsAreClaimed(n, orgs);
    RowOutcome(n, orgs, rows, 0);
    ProjectSlugIsClean(u, row.project);
    SafeNameIsClean(row.name);
    AliasIsNoOrgFilename(u, orgs, slug, safe);
    assert After(n, orgs, rows, 0) == ClaimOrgs(n, orgs);
    assert n.attempts(row, true)[0] == Attempt(AliasName(slug, safe), AliasName(slug, safe) + ".md");
    assert Free(ClaimOrgs(n, orgs), n.attempts(row, true)[0]);
  }

  lemma {:induction false} ClaimsStay(n: Naming, orgs: seq<OrgAgent>, rows: seq<ProjectAgent>, j: nat, k: nat)
    requires j <= k <= |rows|
    ensures After(n, orgs, rows, j).claimed.Keys <= After(n, orgs, rows, k).claimed.Keys
  {
    if j < k {
      ClaimsStay(n, orgs, rows, j, k - 1);
    }
  }

  /** Counting first does not make the outcome independent of import order: a row claimed once, whose name is the alias of a
      twice-claimed row, is contested after that row and not before it. */
  lemma {:induction false} OrderMatters(u: Unicode, orgs: seq<OrgAgent>, rows: seq<ProjectAgent>, k: nat, rows': seq<ProjectAgent>)
    requires u.Sane() && multiset(rows) == multiset(rows') && 0 < k < |rows| && rows' != [] && rows'[0] == rows[k]
    requires rows[0].aliasable && ClaimedTwice(orgs, rows, rows[0]) && !ClaimedTwice(orgs, rows, rows[k])
    requires rows[k].name == AliasName(ProjectSlug(u, rows[0].project), SafeName(rows[0].name))
    ensures ContestedAt(Spelling(u), orgs, rows, k) && !ContestedAt(Spelling(u), orgs, rows', 0)
  {
    var n := Spelling(u);
    FirstTakesItsAlias(u, orgs, rows);
    ClaimsStay(n, orgs, rows, 1, k);
    assert rows[k].name in After(n, orgs, rows, k).claimed.Keys;
    ClaimantsIgnoreOrder(rows, rows', rows[k].name);
    OrgsAreClaimed(n, orgs);
    assert After(n, orgs, rows', 0) == ClaimOrgs(n, orgs);
  }

  /** Three such rows: two agents of one name, and a third named as the first one's alias. */
  lemma {:induction false} ThreeRowsDisagree(u: Unicode, orgs: seq<OrgAgent>, rows: seq<ProjectAgent>, rows': seq<ProjectAgent>)
    requires |rows| == 3 && rows' == [rows[2], rows[0], rows[1]]
    requires u.Sane() && rows[0].aliasable && rows[1].name == rows[0].name
    requires rows[2].name == AliasName(ProjectSlug(u, rows[0].project), SafeName(rows[0].name))
    requires rows[2].name !in OrgNames(orgs)
    ensures ContestedAt(Spelling(u), orgs, rows, 2) && !ContestedAt(Spelling(u), orgs, rows', 0)
  {
    AliasIsNeverTheDeclaredName(u, rows[0].project, rows[0].name, rows[0].id);
    TwoClaim(rows, 0, 1);
    LastClaimsAlone(rows);
    Rotated(rows, rows');
    OrderMatters(u, orgs, rows, 2, rows');
  }

  lemma {:induction false} Rotated(rows: seq<ProjectAgent>, rows': seq<ProjectAgent>)
    requires |rows| == 3 && rows' == [rows[2], rows[0], rows[1]]
    ensures multiset(rows) == multiset(rows')
  {
    assert rows == [rows[0], rows[1], rows[2]];
  }

  lemma {:induction false} LastClaimsAlone(rows: seq<ProjectAgent>)
    requires |rows| == 3 && rows[0].name != rows[2].name && rows[1].name != rows[2].name
    ensures Claimants(rows, rows[2].name) == 1
  {
    var name, two := rows[2].name, rows[..2];
    assert two[..1][..0] == [] && two[..1] == [rows[0]];
    assert Claimants(two[..1], name) == 0;
    assert Claimants(two, name) == 0;
  }

  // Going unnamed.

  /** Some spelling of the row has this filename. */
  ghost predicate SpellsFile(n: Naming, row: ProjectAgent, filename: string) {
    exists a, contested | a in n.attempts(row, contested) :: a.filename == filename
  }

  lemma {:induction false} FilesHaveSources(n: Naming, orgs: seq<OrgAgent>, rows: seq<ProjectAgent>, k: nat, filename: string)
    requires k <= |rows| && filename in After(n, orgs, rows, k).seen
    ensures filename in OrgFilenames(n, orgs) || exists j | 0 <= j < k :: SpellsFile(n, rows[j], filename)
  {
    if k == 0 {
      OrgsAreClaimed(n, orgs);
    } else if filename in After(n, orgs, rows, k - 1).seen {
      FilesHaveSources(n, orgs, rows, k - 1, filename);
    } else {
      var attempts := n.attempts(rows[k - 1], ContestedAt(n, orgs, rows, k - 1));
      var chosen := FirstFree(After(n, orgs, rows, k - 1), attempts);
      assert chosen.Some? && chosen.value in attempts && chosen.value.filename == filename;
    }
  }

  function TailOf(row: ProjectAgent): string {
    SafeName(row.name) + "-" + Decimal(row.id)
  }

  /** This row can take the alias `slug--tail` from another: it declares that name, or it is of a project with that slug and its
      safe name, alone or with its id, is that tail. */
  ghost predicate Rivals(u: Unicode, r: ProjectAgent, slug: string, tail: string) {
    || r.name == AliasName(slug, tail)
    || (ProjectSlug(u, r.project) == slug && (SafeName(r.name) == tail || TailOf(r) == tail))
  }

  ghost predicate Rivalled(u: Unicode, orgs: seq<OrgAgent>, rows: seq<ProjectAgent>, k: nat, slug: string, tail: string)
    requires k <= |rows|
  {
    AliasName(slug, tail) in OrgNames(orgs) || exists j | 0 <= j < k :: Rivals(u, rows[j], slug, tail)
  }

  lemma {:induction false} SpellerIsRival(u: Unicode, r: ProjectAgent, slug: string, tail: string, a: Attempt, contested: bool)
    requires a in Attempts(u, r, contested) && Clean(slug) && Clean(tail)
    requires a.invocable == AliasName(slug, tail) || a.filename == AliasName(slug, tail) + ".md"
    ensures Rivals(u, r, slug, tail)
  {
    var alias, slug', safe := AliasName(slug, tail), ProjectSlug(u, r.project), SafeName(r.name);
    ProjectSlugIsClean(u, r.project);
    SafeNameIsClean(r.name);
    SafeNameHasNoSeparator(r.name);
    TailWithIdIsClean(safe, r.id);
    AliasIsNoFilename(r.name, slug, tail);
    AttemptsOf(u, r, contested, a);
    SameStem(AliasName(slug', safe), alias);
    SameStem(AliasName(slug', TailOf(r)), alias);
    if AliasName(slug', safe) == alias {
      AliasIsInjective(slug', safe, slug, tail);
    } else if AliasName(slug', TailOf(r)) == alias {
      AliasIsInjective(slug', TailOf(r), slug, tail);
    }
  }

  /** Every spelling of a row: its name or one of its aliases, in a file of one of three names. */
  lemma {:induction false} AttemptsOf(u: Unicode, r: ProjectAgent, contested: bool, a: Attempt)
    requires a in Attempts(u, r, contested)
    ensures var slug, safe := ProjectSlug(u, r.project), SafeName(r.name);
      && a.invocable in {r.name, AliasName(slug, safe), AliasName(slug, TailOf(r))}
      && a.filename in {safe + ".md", AliasName(slug, safe) + ".md", AliasName(slug, TailOf(r)) + ".md"}
  {
    AliasWithIdIsAlias(ProjectSlug(u, r.project), SafeName(r.name), r.id);
  }

  /** An alias whose name or filename is taken has a rival. */
  lemma {:induction false} TakenIsRivalled(u: Unicode, orgs: seq<OrgAgent>, rows: seq<ProjectAgent>, k: nat, slug: string, tail: string)
    requires u.Sane() && k <= |rows| && Clean(slug) && Clean(tail)
    requires var st := After(Spelling(u), orgs, rows, k);
      AliasName(slug, tail) in st.claimed || AliasName(slug, tail) + ".md" in st.seen
    ensures Rivalled(u, orgs, rows, k, slug, tail)
  {
    var n, alias := Spelling(u), AliasName(slug, tail);
    if alias in After(n, orgs, rows, k).claimed {
      SpellingRenames(u);
      ClaimedIsExplained(n, orgs, rows, k, alias);
      if j :| 0 <= j < k && Generates(n, rows[j], alias) {
        var a :| a in n.attempts(rows[j], true) && a.invocable == alias;
        SpellerIsRival(u, rows[j], slug, tail, a, true);
      }
    } else {
      FilesHaveSources(n, orgs, rows, k, alias + ".md");
      AliasIsNoOrgFilename(u, orgs, slug, tail);
      var j :| 0 <= j < k && SpellsFile(n, rows[j], alias + ".md");
      var a, contested :| a in n.attempts(rows[j], contested) && a.filename == alias + ".md";
      SpellerIsRival(u, rows[j], slug, tail, a, contested);
    }
  }

  /** Each alias of an aliasable row is tried, as a name when contested and as a filename always. */
  lemma {:induction false} BothAliasesAreTried(u: Unicode, orgs: seq<OrgAgent>, rows: seq<ProjectAgent>, k: nat, tail: string)
    requires k < |rows| && rows[k].aliasable && ReportedAt(Spelling(u), orgs, rows, k)
    requires tail == SafeName(rows[k].name) || tail == TailOf(rows[k])
    ensures var st, alias := After(Spelling(u), orgs, rows, k), AliasName(ProjectSlug(u, rows[k].project), tail);
      alias in st.claimed || alias + ".md" in st.seen
  {
    var n, row := Spelling(u), rows[k];
    var slug, safe, contested := ProjectSlug(u, row.project), SafeName(row.name), ContestedAt(n, orgs, rows, k);
    RowOutcome(n, orgs, rows, k);
    AliasWithIdIsAlias(slug, safe, row.id);
    var attempts := Attempts(u, row, contested);
    var i := (if contested then 0 else 1) + (if tail == safe then 0 else 1);
    assert attempts[i] in n.attempts(row, contested);
    assert attempts[i].filename == AliasName(slug, tail) + ".md";
  }

  /** An aliasable row goes unnamed only if both its aliases have rivals among the org agents and the earlier rows; and the second
      alias, which ends in the row's own id, has one only by being declared outright or by a safe name that ends in that id. */
  lemma {:induction false} UnnamedHasRivals(u: Unicode, orgs: seq<OrgAgent>, rows: seq<ProjectAgent>, k: nat)
    requires u.Sane() && k < |rows| && rows[k].aliasable && ReportedAt(Spelling(u), orgs, rows, k)
    requires forall j | 0 <= j < k :: rows[j].id != rows[k].id
    ensures var slug := ProjectSlug(u, rows[k].project);
      && Rivalled(u, orgs, rows, k, slug, SafeName(rows[k].name))
      && (|| AliasWithId(slug, SafeName(rows[k].name), rows[k].id) in OrgNames(orgs)
          || exists j | 0 <= j < k ::
               || rows[j].name == AliasWithId(slug, SafeName(rows[k].name), rows[k].id)
               || (ProjectSlug(u, rows[j].project) == slug && SafeName(rows[j].name) == TailOf(rows[k])))
  {
    var row := rows[k];
    var slug, safe := ProjectSlug(u, row.project), SafeName(row.name);
    ProjectSlugIsClean(u, row.project);
    SafeNameIsClean(row.name);
    SafeNameHasNoSeparator(row.name);
    TailWithIdIsClean(safe, row.id);
    BothAliasesAreTried(u, orgs, rows, k, safe);
    TakenIsRivalled(u, orgs, rows, k, slug, safe);
    BothAliasesAreTried(u, orgs, rows, k, TailOf(row));
    TakenIsRivalled(u, orgs, rows, k, slug, TailOf(row));
    AliasWithIdIsAlias(slug, safe, row.id);
    if j :| 0 <= j < k && Rivals(u, rows[j], slug, TailOf(row)) {
      if TailOf(rows[j]) == TailOf(row) {
        TailsEndInIds(rows[j], row);
      }
    }
  }

  lemma {:induction false} TailsEndInIds(a: ProjectAgent, b: ProjectAgent)
    requires TailOf(a) == TailOf(b)
    ensures a.id == b.id
  {
    SplitAtLast('-', SafeName(a.name), Decimal(a.id), SafeName(b.name), Decimal(b.id));
    DecimalIsInjective(a.id, b.id);
  }

  /** Org agents that bear both aliases leave a contested row unnamed, whatever the other rows are. */
  lemma {:induction false} OrgNamesShutOutAliases(u: Unicode, orgs: seq<OrgAgent>, rows: seq<ProjectAgent>, k: nat)
    requires k < |rows| && rows[k].aliasable && ContestedAt(Spelling(u), orgs, rows, k)
    requires var slug, safe := ProjectSlug(u, rows[k].project), SafeName(rows[k].name);
      AliasName(slug, safe) in OrgNames(orgs) && AliasWithId(slug, safe, rows[k].id) in OrgNames(orgs)
    ensures ReportedAt(Spelling(u), orgs, rows, k)
  {
    var n, start := Spelling(u), ClaimOrgs(Spelling(u), orgs);
    RowOutcome(n, orgs, rows, k);
    OrgsAreClaimed(n, orgs);
    ClaimsOnlyGrow(n, start, rows, k);
    ContestedSpellings(u, rows[k]);
    forall a | a in n.attempts(rows[k], true)
      ensures !Free(After(n, orgs, rows, k), a)
    {
      assert a.invocable in Aliases(start.desired);
      assert a.invocable in start.claimed.Keys;
    }
  }

  /** A row that cannot be aliased goes unnamed beside an org agent of its name. */
  lemma {:induction false} OrgNameShutsOutUnaliasable(n: Naming, orgs: seq<OrgAgent>, rows: seq<ProjectAgent>, k: nat)
    requires RenamesContested(n) && k < |rows| && !rows[k].aliasable && rows[k].name in OrgNames(orgs)
    ensures ReportedAt(n, orgs, rows, k)
  {
    RowOutcome(n, orgs, rows, k);
    OrgsAreClaimed(n, orgs);
    ClaimsOnlyGrow(n, ClaimOrgs(n, orgs), rows, k);
    assert rows[k].name in Aliases(ClaimOrgs(n, orgs).desired);
    assert rows[k].name in ClaimOrgs(n, orgs).claimed.Keys;
  }

  /** Otherwise it goes unnamed only because of an earlier row: one that cannot be aliased either and has its name, one whose alias
      is its name, or one that can take its last filename. An aliasable claimant never costs it the bare name. */
  lemma {:induction false} UnaliasableUnnamed(u: Unicode, orgs: seq<OrgAgent>, rows: seq<ProjectAgent>, k: nat)
    requires u.Sane() && k < |rows| && !rows[k].aliasable && ReportedAt(Spelling(u), orgs, rows, k)
    ensures || rows[k].name in OrgNames(orgs)
            || (exists j | 0 <= j < k :: rows[j].name == rows[k].name && !rows[j].aliasable)
            || (exists j | 0 <= j < k :: Generates(Spelling(u), rows[j], rows[k].name))
            || Rivalled(u, orgs, rows, k, ProjectSlug(u, rows[k].project), TailOf(rows[k]))
  {
    var n, row := Spelling(u), rows[k];
    var slug, safe, st := ProjectSlug(u, row.project), SafeName(row.name), After(n, orgs, rows, k);
    SpellingRenames(u);
    RowOutcome(n, orgs, rows, k);
    if row.name in st.claimed {
      ClaimedIsExplained(n, orgs, rows, k, row.name);
      if j :| 0 <= j < k && rows[j].name == row.name && StaysBare(orgs, rows, rows[j]) {
        TwoClaim(rows, j, k);
      }
    } else {
      ProjectSlugIsClean(u, row.project);
      SafeNameIsClean(row.name);
      SafeNameHasNoSeparator(row.name);
      TailWithIdIsClean(safe, row.id);
      AliasWithIdIsAlias(slug, safe, row.id);
      var last := Attempts(u, row, false)[2];
      assert Attempts(u, row, ContestedAt(n, orgs, rows, k)) == Attempts(u, row, false);
      assert last in n.attempts(row, ContestedAt(n, orgs, rows, k)) && !Free(st, last);
      TakenIsRivalled(u, orgs, rows, k, slug, TailOf(row));
    }
  }

  // Ordinary rows that leave one unnamed: no declared name holds a double dash.

  lemma {:induction false} SafeNameIsIdle(name: string)
    requires Clean(name) && forall i | 0 <= i < |name| :: !IsSeparator(name[i])
    ensures SafeName(name) == name
  {
    assert Subst(name) == name;
    CollapseIsIdle(name);
  }

  /** A contested row is first offered this alias. */
  ghost predicate OffersFirst(n: Naming, row: ProjectAgent, alias: string) {
    n.attempts(row, true) != [] && n.attempts(row, true)[0] == Attempt(alias, alias + ".md")
  }

  lemma {:induction false} TakesFirst(n: Naming, st: State, row: ProjectAgent, alias: string, claimants: nat)
    requires OffersFirst(n, row, alias) && claimants > 1 && alias !in st.claimed && alias + ".md" !in st.seen
    ensures var st' := AgentStep(n, st, row, claimants);
      st'.claimed.Keys == st.claimed.Keys + {alias} && st'.seen == st.seen + {alias + ".md"} && st'.conflicts == st.conflicts
  {
    assert Free(st, n.attempts(row, true)[0]);
  }

  lemma {:induction false} BothClaimed(n: Naming, rows: seq<ProjectAgent>, x: string, y: string)
    requires |rows| >= 2 && OffersFirst(n, rows[0], x) && OffersFirst(n, rows[1], y) && x != y
    requires Claimants(rows, rows[0].name) > 1 && Claimants(rows, rows[1].name) > 1
    ensures var st := PlaceAgents(n, START, rows, 2);
      st.conflicts == [] && st.claimed.Keys == {x, y}
  {
    var one := AgentStep(n, START, rows[0], Claimants(rows, rows[0].name));
    assert PlaceAgents(n, START, rows, 1) == AgentStep(n, PlaceAgents(n, START, rows, 0), rows[0], Claimants(rows, rows[0].name));
    TakesFirst(n, START, rows[0], x, Claimants(rows, rows[0].name));
    SameStem(x, y);
    TakesFirst(n, one, rows[1], y, Claimants(rows, rows[1].name));
  }

  lemma {:induction false} BothTaken(n: Naming, st: State, row: ProjectAgent, claimants: nat, x: string, y: string)
    requires claimants > 1 && st.claimed.Keys == {x, y} && row.name != x && row.name != y && st.conflicts == []
    requires forall a | a in n.attempts(row, true) :: a.invocable == x || a.invocable == y
    ensures AgentStep(n, st, row, claimants).conflicts == [Conflict(row.id, row.name, row.project, ProjectOwner(row.project))]
  {
    forall a | a in n.attempts(row, true)
      ensures !Free(st, a)
    {
      assert a.invocable in st.claimed.Keys;
    }
    assert row.name !in st.claimed.Keys;
  }

  /** The aliases the two longer names have, and the third row's. */
  lemma {:induction false} OffersOf(u: Unicode, row: ProjectAgent)
    requires row.aliasable
    ensures OffersFirst(Spelling(u), row, AliasName(ProjectSlug(u, row.project), SafeName(row.name)))
  {
  }

  lemma {:induction false} PairsAreTwiceClaimed(rows: seq<ProjectAgent>)
    requires |rows| == 4 && rows[0].name == rows[2].name && rows[1].name == rows[3].name
    ensures forall i | 0 <= i < 3 :: Claimants(rows, rows[i].name) > 1
  {
    TwoClaim(rows, 0, 2);
    TwoClaim(rows, 1, 3);
  }

  /** Two agents named alike, the second of them third in line, and two more named like them with its id at the end, all in projects
      of one slug: the first two rows take both its aliases. */
  lemma {:induction false} OrdinaryRowsLeaveOneUnnamed(u: Unicode, rows: seq<ProjectAgent>, name: string)
    requires u.Sane() && |rows| == 4 && Clean(name) && forall i | 0 <= i < |name| :: !IsSeparator(name[i])
    requires forall i | 0 <= i < 4 :: rows[i].aliasable && rows[i].project == rows[0].project
    requires rows[0].name == rows[2].name == name
    requires rows[1].name == rows[3].name == name + "-" + Decimal(rows[2].id)
    ensures PlaceAgents(Spelling(u), START, rows, 3).conflicts
         == [Conflict(rows[2].id, name, rows[2].project, ProjectOwner(rows[2].project))]
  {
    var n, row := Spelling(u), rows[2];
    var slug, longer := ProjectSlug(u, row.project), name + "-" + Decimal(row.id);
    var x, y := AliasName(slug, name), AliasName(slug, longer);
    TailWithIdIsClean(name, row.id);
    SafeNameIsIdle(name);
    SafeNameIsIdle(longer);
    AliasWithIdIsAlias(slug, name, row.id);
    AliasIsNeverTheDeclaredName(u, row.project, name, row.id);
    ContestedSpellings(u, row);
    OffersOf(u, rows[0]);
    OffersOf(u, rows[1]);
    SqueezedOutByPair(n, rows, x, y);
  }

  lemma {:induction false} SqueezedOutByPair(n: Naming, rows: seq<ProjectAgent>, x: string, y: string)
    requires |rows| == 4 && rows[0].name == rows[2].name && rows[1].name == rows[3].name
    requires OffersFirst(n, rows[0], x) && OffersFirst(n, rows[1], y) && x != y && rows[2].name != x && rows[2].name != y
    requires forall a | a in n.attempts(rows[2], true) :: a.invocable == x || a.invocable == y
    ensures PlaceAgents(n, START, rows, 3).conflicts
         == [Conflict(rows[2].id, rows[2].name, rows[2].project, ProjectOwner(rows[2].project))]
  {
    PairsAreTwiceClaimed(rows);
    BothClaimed(n, rows, x, y);
    BothTaken(n, PlaceAgents(n, START, rows, 2), rows[2], Claimants(rows, rows[2].name), x, y);
  }

  // What the lists say of each agent.

  lemma {:induction false} OrgLinksAre(n: Naming, orgs: seq<OrgAgent>)
    ensures |ClaimOrgs(n, orgs).desired| == |orgs|
    ensures forall i | 0 <= i < |orgs| ::
              ClaimOrgs(n, orgs).desired[i]
              == Link(true, orgs[i].id, n.orgFilename(orgs[i].name), orgs[i].name, false, orgs[i].installPath)
    ensures forall name | name in ClaimOrgs(n, orgs).claimed :: ClaimOrgs(n, orgs).claimed[name] == OrgOwner
  {
    if orgs != [] {
      OrgLinksAre(n, orgs[..|orgs| - 1]);
    }
  }

  lemma {:induction false} LinksStay(n: Naming, orgs: seq<OrgAgent>, rows: seq<ProjectAgent>, k: nat)
    requires k <= |rows|
    ensures ClaimOrgs(n, orgs).desired <= After(n, orgs, rows, k).desired
    ensures forall name | name in ClaimOrgs(n, orgs).claimed ::
              name in After(n, orgs, rows, k).claimed && After(n, orgs, rows, k).claimed[name] == ClaimOrgs(n, orgs).claimed[name]
  {
    if k > 0 {
      LinksStay(n, orgs, rows, k - 1);
    }
  }

  /** Every org agent is linked, first of all, under its own name and to its own installed file, whatever the project agents are. */
  lemma {:induction false} OrgAgentsAreLinked(u: Unicode, orgs: seq<OrgAgent>, rows: seq<ProjectAgent>, i: nat)
    requires i < |orgs|
    ensures var links := Allocate(Spelling(u), orgs, rows).desired;
      i < |links| && links[i] == Link(true, orgs[i].id, SafeName(orgs[i].name) + ".md", orgs[i].name, false, orgs[i].installPath)
  {
    OrgLinksAre(Spelling(u), orgs);
    LinksStay(Spelling(u), orgs, rows, |rows|);
    assert Spelling(u).orgFilename(orgs[i].name) == OrgFilename(orgs[i].name);
  }

  /** A reported row is named with its project, and with what shadows it: the org agent of its name, the project that has the name,
      or its own project when nobody has it. */
  lemma {:induction false} ReportNamesTheOwner(n: Naming, orgs: seq<OrgAgent>, rows: seq<ProjectAgent>, k: nat)
    requires k < |rows| && ReportedAt(n, orgs, rows, k)
    ensures var row, st := rows[k], After(n, orgs, rows, k);
      var report := After(n, orgs, rows, k + 1).conflicts[|st.conflicts|];
      && report.rowId == row.id && report.name == row.name && report.project == row.project
      && (row.name in OrgNames(orgs) ==> report.shadowedBy == OrgOwner)
      && (row.name !in OrgNames(orgs) ==> report.shadowedBy.ProjectOwner?)
      && (row.name !in st.claimed ==> report.shadowedBy == ProjectOwner(row.project))
  {
    OrgsAreClaimed(n, orgs);
    OrgLinksAre(n, orgs);
    LinksStay(n, orgs, rows, k);
    OthersOwnTheRest(n, orgs, rows, k);
    var name := rows[k].name;
    assert name in OrgNames(orgs) <==> name in Aliases(ClaimOrgs(n, orgs).desired);
  }

  lemma {:induction false} OthersOwnTheRest(n: Naming, orgs: seq<OrgAgent>, rows: seq<ProjectAgent>, k: nat)
    requires k <= |rows|
    ensures forall name | name in After(n, orgs, rows, k).claimed && name !in ClaimOrgs(n, orgs).claimed ::
              After(n, orgs, rows, k).claimed[name].ProjectOwner?
  {
    if k > 0 {
      OthersOwnTheRest(n, orgs, rows, k - 1);
    }
  }
}
