/** Which name and filename each row gets, and exactly when the order of the rows can change one. */
module NameOutcome {
  import opened Text
  import opened AliasSeam
  import opened NameAllocator
  import opened NameLaws
  import opened NameOrder

  /** The name and filename row `k` is linked under, if it is linked at all. */
  ghost function Given(n: Naming, orgs: seq<OrgAgent>, rows: seq<ProjectAgent>, k: nat): Option<Attempt>
    requires k < |rows|
  {
    var links, links' := After(n, orgs, rows, k).desired, After(n, orgs, rows, k + 1).desired;
    if |links'| > |links| then Some(Attempt(links'[|links|].alias, links'[|links|].filename)) else None
  }

  /** What a row is given when it comes first: told from the org agents, the row, and how many rows declare its name. */
  function FirstChoice(n: Naming, orgs: seq<OrgAgent>, rows: seq<ProjectAgent>, row: ProjectAgent): Option<Attempt> {
    FirstFree(ClaimOrgs(n, orgs), n.attempts(row, ClaimedTwice(orgs, rows, row)))
  }

  predicate Clash(x: Option<Attempt>, y: Option<Attempt>) {
    x.Some? && y.Some? && (x.value.invocable == y.value.invocable || x.value.filename == y.value.filename)
  }

  /** No two rows want the same name or the same filename first. */
  ghost predicate NoClash(n: Naming, orgs: seq<OrgAgent>, rows: seq<ProjectAgent>) {
    forall r, q | r in rows && q in rows && r != q :: !Clash(FirstChoice(n, orgs, rows, r), FirstChoice(n, orgs, rows, q))
  }

  /** Every row is given the same in every order of the rows. */
  ghost predicate SameInEveryOrder(n: Naming, orgs: seq<OrgAgent>, rows: seq<ProjectAgent>) {
    forall rows', k, k' | multiset(rows') == multiset(rows) && 0 <= k < |rows| && 0 <= k' < |rows'| && rows[k] == rows'[k'] ::
      Given(n, orgs, rows, k) == Given(n, orgs, rows', k')
  }

  /** The primary key. */
  ghost predicate DistinctIds(rows: seq<ProjectAgent>) {
    forall i, j | 0 <= i < j < |rows| :: rows[i].id != rows[j].id
  }

  /** A row whose name no org agent bears can always be given that name when it comes first. */
  ghost predicate OffersBareName(n: Naming, orgs: seq<OrgAgent>) {
    forall row: ProjectAgent | row.name !in OrgNames(orgs) :: FirstFree(ClaimOrgs(n, orgs), n.attempts(row, false)).Some?
  }

  lemma {:induction false} SpellingOffersBareName(u: Unicode, orgs: seq<OrgAgent>)
    ensures OffersBareName(Spelling(u), orgs)
  {
    var n, st := Spelling(u), ClaimOrgs(Spelling(u), orgs);
    OrgsAreClaimed(n, orgs);
    forall row: ProjectAgent | row.name !in OrgNames(orgs)
      ensures FirstFree(st, n.attempts(row, false)).Some?
    {
      var slug, safe := ProjectSlug(u, row.project), SafeName(row.name);
      ProjectSlugIsClean(u, row.project);
      SafeNameIsClean(row.name);
      AliasIsNoOrgFilename(u, orgs, slug, safe);
      assert n.attempts(row, false)[1] == Attempt(row.name, AliasName(slug, safe) + ".md");
      assert n.attempts(row, false)[1] in n.attempts(row, false) && Free(st, n.attempts(row, false)[1]);
    }
  }

  lemma {:induction false} GivenIsFirstFree(n: Naming, orgs: seq<OrgAgent>, rows: seq<ProjectAgent>, k: nat)
    requires k < |rows|
    ensures Given(n, orgs, rows, k) == FirstFree(After(n, orgs, rows, k), n.attempts(rows[k], ContestedAt(n, orgs, rows, k)))
    ensures var a, st, st' := Given(n, orgs, rows, k), After(n, orgs, rows, k), After(n, orgs, rows, k + 1);
      && st'.claimed.Keys == st.claimed.Keys + (if a.Some? then {a.value.invocable} else {})
      && st'.seen == st.seen + (if a.Some? then {a.value.filename} else {})
  {
  }

  lemma {:induction false} TakenStays(n: Naming, orgs: seq<OrgAgent>, rows: seq<ProjectAgent>, j: nat, k: nat)
    requires j <= k <= |rows|
    ensures After(n, orgs, rows, j).claimed.Keys <= After(n, orgs, rows, k).claimed.Keys
    ensures After(n, orgs, rows, j).seen <= After(n, orgs, rows, k).seen
  {
    if j < k {
      TakenStays(n, orgs, rows, j, k - 1);
      GivenIsFirstFree(n, orgs, rows, k - 1);
    }
  }

  /** Taking more leaves the first free spelling first, as long as it is not taken itself. */
  lemma {:induction false} FirstFreeStays(st: State, st': State, attempts: seq<Attempt>)
    requires st.claimed.Keys <= st'.claimed.Keys && st.seen <= st'.seen
    requires FirstFree(st, attempts).Some? ==> Free(st', FirstFree(st, attempts).value)
    ensures FirstFree(st', attempts) == FirstFree(st, attempts)
  {
    if attempts != [] && !Free(st, attempts[0]) {
      assert attempts[0].invocable in st.claimed.Keys || attempts[0].filename in st.seen;
      FirstFreeStays(st, st', attempts[1..]);
    }
  }

  // Without a clash every row gets its first choice, wherever it stands.

  /** Beyond the org agents' own, only the first choices of the first `k` rows are taken. */
  ghost predicate OnlyChoicesTaken(n: Naming, orgs: seq<OrgAgent>, rows: seq<ProjectAgent>, k: nat)
    requires k <= |rows|
  {
    var start, st := ClaimOrgs(n, orgs), After(n, orgs, rows, k);
    && (forall name | name in st.claimed.Keys && name !in start.claimed.Keys ::
          exists j | 0 <= j < k :: NameChosen(n, orgs, rows, rows[j], name))
    && (forall file | file in st.seen && file !in start.seen ::
          exists j | 0 <= j < k :: FileChosen(n, orgs, rows, rows[j], file))
  }

  ghost predicate NameChosen(n: Naming, orgs: seq<OrgAgent>, rows: seq<ProjectAgent>, r: ProjectAgent, name: string) {
    var a := FirstChoice(n, orgs, rows, r);
    a.Some? && a.value.invocable == name
  }

  ghost predicate FileChosen(n: Naming, orgs: seq<OrgAgent>, rows: seq<ProjectAgent>, r: ProjectAgent, file: string) {
    var a := FirstChoice(n, orgs, rows, r);
    a.Some? && a.value.filename == file
  }

  lemma {:induction false} ChoiceIsUntaken(n: Naming, orgs: seq<OrgAgent>, rows: seq<ProjectAgent>, k: nat)
    requires k < |rows| && NoClash(n, orgs, rows) && DistinctIds(rows) && OnlyChoicesTaken(n, orgs, rows, k)
    requires FirstChoice(n, orgs, rows, rows[k]).Some?
    ensures Free(After(n, orgs, rows, k), FirstChoice(n, orgs, rows, rows[k]).value)
  {
    var a, st := FirstChoice(n, orgs, rows, rows[k]).value, After(n, orgs, rows, k);
    forall j | 0 <= j < k
      ensures !NameChosen(n, orgs, rows, rows[j], a.invocable) && !FileChosen(n, orgs, rows, rows[j], a.filename)
    {
      assert rows[j] in rows && rows[k] in rows && rows[j].id != rows[k].id;
      assert !Clash(FirstChoice(n, orgs, rows, rows[j]), FirstChoice(n, orgs, rows, rows[k]));
    }
    assert a.invocable !in ClaimOrgs(n, orgs).claimed.Keys;
    assert a.invocable !in st.claimed.Keys;
  }

  /** Then a row is contested exactly when its name is claimed twice. */
  lemma {:induction false} ContestedAsCounted(n: Naming, orgs: seq<OrgAgent>, rows: seq<ProjectAgent>, k: nat)
    requires RenamesContested(n) && OffersBareName(n, orgs)
    requires k < |rows| && NoClash(n, orgs, rows) && DistinctIds(rows) && OnlyChoicesTaken(n, orgs, rows, k)
    ensures ContestedAt(n, orgs, rows, k) <==> ClaimedTwice(orgs, rows, rows[k])
  {
    RowOutcome(n, orgs, rows, k);
    if !ClaimedTwice(orgs, rows, rows[k]) {
      ChoiceIsUntaken(n, orgs, rows, k);
    }
  }

  lemma {:induction false} ChoiceIsGiven(n: Naming, orgs: seq<OrgAgent>, rows: seq<ProjectAgent>, k: nat)
    requires RenamesContested(n) && OffersBareName(n, orgs)
    requires k < |rows| && NoClash(n, orgs, rows) && DistinctIds(rows) && OnlyChoicesTaken(n, orgs, rows, k)
    ensures Given(n, orgs, rows, k) == FirstChoice(n, orgs, rows, rows[k])
  {
    GivenIsFirstFree(n, orgs, rows, k);
    ContestedAsCounted(n, orgs, rows, k);
    TakenStays(n, orgs, rows, 0, k);
    if FirstChoice(n, orgs, rows, rows[k]).Some? {
      ChoiceIsUntaken(n, orgs, rows, k);
    }
    FirstFreeStays(ClaimOrgs(n, orgs), After(n, orgs, rows, k), n.attempts(rows[k], ClaimedTwice(orgs, rows, rows[k])));
  }

  lemma {:induction false} NothingTakenAtFirst(n: Naming, orgs: seq<OrgAgent>, rows: seq<ProjectAgent>)
    ensures OnlyChoicesTaken(n, orgs, rows, 0)
  {
    assert After(n, orgs, rows, 0) == ClaimOrgs(n, orgs);
  }

  lemma {:induction false} ChoicesAreTaken(n: Naming, orgs: seq<OrgAgent>, rows: seq<ProjectAgent>, k: nat)
    requires RenamesContested(n) && OffersBareName(n, orgs)
    requires k <= |rows| && NoClash(n, orgs, rows) && DistinctIds(rows)
    ensures OnlyChoicesTaken(n, orgs, rows, k)
  {
    NothingTakenAtFirst(n, orgs, rows);
    forall j: nat | j < |rows| && OnlyChoicesTaken(n, orgs, rows, j)
      ensures OnlyChoicesTaken(n, orgs, rows, j + 1)
    {
      ChoiceIsGiven(n, orgs, rows, j);
      ChoiceIsAdded(n, orgs, rows, j);
    }
    StepByStep(n, orgs, rows, k);
  }

  lemma {:induction false} StepByStep(n: Naming, orgs: seq<OrgAgent>, rows: seq<ProjectAgent>, k: nat)
    requires k <= |rows| && OnlyChoicesTaken(n, orgs, rows, 0)
    requires forall j: nat | j < |rows| && OnlyChoicesTaken(n, orgs, rows, j) :: OnlyChoicesTaken(n, orgs, rows, j + 1)
    ensures OnlyChoicesTaken(n, orgs, rows, k)
  {
    if k > 0 {
      StepByStep(n, orgs, rows, k - 1);
      assert OnlyChoicesTaken(n, orgs, rows, k - 1 + 1);
    }
  }

  lemma {:induction false} ChoiceIsAdded(n: Naming, orgs: seq<OrgAgent>, rows: seq<ProjectAgent>, k: nat)
    requires k < |rows| && OnlyChoicesTaken(n, orgs, rows, k)
    requires Given(n, orgs, rows, k) == FirstChoice(n, orgs, rows, rows[k])
    ensures OnlyChoicesTaken(n, orgs, rows, k + 1)
  {
    GivenIsFirstFree(n, orgs, rows, k);
    var start, st, st' := ClaimOrgs(n, orgs), After(n, orgs, rows, k), After(n, orgs, rows, k + 1);
    forall name | name in st'.claimed.Keys && name !in start.claimed.Keys
      ensures exists j | 0 <= j < k + 1 :: NameChosen(n, orgs, rows, rows[j], name)
    {
      if name in st.claimed.Keys {
        var j :| 0 <= j < k && NameChosen(n, orgs, rows, rows[j], name);
      } else {
        assert NameChosen(n, orgs, rows, rows[k], name);
      }
    }
    forall file | file in st'.seen && file !in start.seen
      ensures exists j | 0 <= j < k + 1 :: FileChosen(n, orgs, rows, rows[j], file)
    {
      if file in st.seen {
        var j :| 0 <= j < k && FileChosen(n, orgs, rows, rows[j], file);
      } else {
        assert FileChosen(n, orgs, rows, rows[k], file);
      }
    }
  }

  // With one, whichever of the two rows comes first decides.

  lemma {:induction false} FirstRowGetsItsChoice(n: Naming, orgs: seq<OrgAgent>, rows: seq<ProjectAgent>)
    requires rows != []
    ensures Given(n, orgs, rows, 0) == FirstChoice(n, orgs, rows, rows[0])
  {
    GivenIsFirstFree(n, orgs, rows, 0);
    OrgsAreClaimed(n, orgs);
    assert After(n, orgs, rows, 0) == ClaimOrgs(n, orgs);
  }

  lemma {:induction false} LaterRowLosesItsChoice(n: Naming, orgs: seq<OrgAgent>, rows: seq<ProjectAgent>, k: nat)
    requires 0 < k < |rows| && Clash(FirstChoice(n, orgs, rows, rows[k]), FirstChoice(n, orgs, rows, rows[0]))
    ensures Given(n, orgs, rows, k) != FirstChoice(n, orgs, rows, rows[k])
  {
    FirstRowGetsItsChoice(n, orgs, rows);
    GivenIsFirstFree(n, orgs, rows, 0);
    GivenIsFirstFree(n, orgs, rows, k);
    TakenStays(n, orgs, rows, 1, k);
    var a, st := FirstChoice(n, orgs, rows, rows[k]).value, After(n, orgs, rows, k);
    assert a.invocable in st.claimed.Keys || a.filename in st.seen;
    assert !Free(st, a);
  }

  lemma {:induction false} ChoiceIgnoresOrder(n: Naming, orgs: seq<OrgAgent>, rows: seq<ProjectAgent>, rows': seq<ProjectAgent>,
          row: ProjectAgent)
    requires multiset(rows) == multiset(rows')
    ensures FirstChoice(n, orgs, rows, row) == FirstChoice(n, orgs, rows', row)
  {
    ClaimantsIgnoreOrder(rows, rows', row.name);
  }

  function FromFront(rows: seq<ProjectAgent>, i: nat): seq<ProjectAgent>
    requires i < |rows|
  {
    [rows[i]] + (rows[..i] + rows[i + 1..])
  }

  lemma {:induction false} FrontIsReordered(rows: seq<ProjectAgent>, i: nat)
    requires i < |rows|
    ensures multiset(FromFront(rows, i)) == multiset(rows)
  {
    WithoutOne(rows, i, "");
  }

  lemma {:induction false} MembersAgree(rows: seq<ProjectAgent>, rows': seq<ProjectAgent>, r: ProjectAgent)
    requires multiset(rows) == multiset(rows')
    ensures r in rows <==> r in rows'
  {
    assert r in rows <==> r in multiset(rows);
    assert r in rows' <==> r in multiset(rows');
  }

  lemma {:induction false} IdsStayDistinct(rows: seq<ProjectAgent>, rows': seq<ProjectAgent>)
    requires multiset(rows) == multiset(rows') && DistinctIds(rows)
    ensures DistinctIds(rows')
  {
    forall i, j | 0 <= i < j < |rows'|
      ensures rows'[i].id != rows'[j].id
    {
      var r, q := rows'[i], rows'[j];
      MembersAgree(rows, rows', r);
      MembersAgree(rows, rows', q);
      var a :| 0 <= a < |rows| && rows[a] == r;
      WithoutOne(rows', i, "");
      WithoutOne(rows, a, "");
      var rest, rest' := rows[..a] + rows[a + 1..], rows'[..i] + rows'[i + 1..];
      assert rest'[j - 1] == q;
      MembersAgree(rest, rest', q);
      var b :| 0 <= b < |rest| && rest[b] == q;
      assert rest[b] == if b < a then rows[b] else rows[b + 1];
    }
  }

  /** Two orders that begin with one row and with the other, and where the first row stands in the second order. */
  lemma {:induction false} TwoOrders(rows: seq<ProjectAgent>, i: nat, j: nat) returns (k: nat)
    requires i < |rows| && j < |rows| && rows[i] != rows[j]
    ensures multiset(FromFront(rows, i)) == multiset(FromFront(rows, j)) == multiset(rows)
    ensures 0 < k < |rows| && FromFront(rows, j)[k] == rows[i]
  {
    FrontIsReordered(rows, i);
    FrontIsReordered(rows, j);
    MembersAgree(rows, FromFront(rows, j), rows[i]);
    k :| 0 <= k < |FromFront(rows, j)| && FromFront(rows, j)[k] == rows[i];
  }

  lemma {:induction false} ClashDecides(n: Naming, orgs: seq<OrgAgent>, rows: seq<ProjectAgent>, mine: seq<ProjectAgent>,
          theirs: seq<ProjectAgent>, k: nat)
    requires multiset(mine) == multiset(rows) == multiset(theirs) && mine != [] && 0 < k < |theirs| && theirs[k] == mine[0]
    requires Clash(FirstChoice(n, orgs, rows, mine[0]), FirstChoice(n, orgs, rows, theirs[0]))
    ensures Given(n, orgs, mine, 0) != Given(n, orgs, theirs, k)
  {
    ChoiceIgnoresOrder(n, orgs, rows, mine, mine[0]);
    ChoiceIgnoresOrder(n, orgs, rows, theirs, mine[0]);
    ChoiceIgnoresOrder(n, orgs, rows, theirs, theirs[0]);
    FirstRowGetsItsChoice(n, orgs, mine);
    LaterRowLosesItsChoice(n, orgs, theirs, k);
  }

  lemma {:induction false} ClashMakesOrderMatter(n: Naming, orgs: seq<OrgAgent>, rows: seq<ProjectAgent>, i: nat, j: nat)
    requires i < |rows| && j < |rows| && rows[i] != rows[j]
    requires Clash(FirstChoice(n, orgs, rows, rows[i]), FirstChoice(n, orgs, rows, rows[j]))
    ensures !SameInEveryOrder(n, orgs, rows)
  {
    var k := TwoOrders(rows, i, j);
    ClashDecides(n, orgs, rows, FromFront(rows, i), FromFront(rows, j), k);
    DifferInTwoOrders(n, orgs, rows, i, FromFront(rows, i), 0, FromFront(rows, j), k);
  }

  lemma {:induction false} DifferInTwoOrders(n: Naming, orgs: seq<OrgAgent>, rows: seq<ProjectAgent>, i: nat,
          a: seq<ProjectAgent>, k: nat, b: seq<ProjectAgent>, l: nat)
    requires multiset(a) == multiset(rows) == multiset(b)
    requires i < |rows| && k < |a| && l < |b| && a[k] == b[l] == rows[i] && Given(n, orgs, a, k) != Given(n, orgs, b, l)
    ensures !SameInEveryOrder(n, orgs, rows)
  {
  }

  lemma {:induction false} NoClashMeansSame(n: Naming, orgs: seq<OrgAgent>, rows: seq<ProjectAgent>, rows': seq<ProjectAgent>,
          k': nat)
    requires RenamesContested(n) && OffersBareName(n, orgs)
    requires DistinctIds(rows) && NoClash(n, orgs, rows) && multiset(rows) == multiset(rows') && k' < |rows'|
    ensures Given(n, orgs, rows', k') == FirstChoice(n, orgs, rows, rows'[k'])
  {
    IdsStayDistinct(rows, rows');
    forall r, q | r in rows' && q in rows' && r != q
      ensures !Clash(FirstChoice(n, orgs, rows', r), FirstChoice(n, orgs, rows', q))
    {
      MembersAgree(rows, rows', r);
      MembersAgree(rows, rows', q);
      ChoiceIgnoresOrder(n, orgs, rows, rows', r);
      ChoiceIgnoresOrder(n, orgs, rows, rows', q);
    }
    ChoicesAreTaken(n, orgs, rows', k');
    ChoiceIsGiven(n, orgs, rows', k');
    ChoiceIgnoresOrder(n, orgs, rows, rows', rows'[k']);
  }

  /** The outcome is independent of the order of the rows exactly when no two rows want the same name or filename first; and then
      every row gets what it wants first, in every order. */
  lemma {:induction false} OutcomeIgnoresOrderIff(u: Unicode, orgs: seq<OrgAgent>, rows: seq<ProjectAgent>)
    requires u.Sane() && DistinctIds(rows)
    ensures SameInEveryOrder(Spelling(u), orgs, rows) <==> NoClash(Spelling(u), orgs, rows)
    ensures NoClash(Spelling(u), orgs, rows) ==>
              forall k | 0 <= k < |rows| :: Given(Spelling(u), orgs, rows, k) == FirstChoice(Spelling(u), orgs, rows, rows[k])
  {
    SpellingRenames(u);
    SpellingOffersBareName(u, orgs);
    OutcomeIff(Spelling(u), orgs, rows);
  }

  lemma {:induction false} OutcomeIff(n: Naming, orgs: seq<OrgAgent>, rows: seq<ProjectAgent>)
    requires RenamesContested(n) && OffersBareName(n, orgs) && DistinctIds(rows)
    ensures SameInEveryOrder(n, orgs, rows) <==> NoClash(n, orgs, rows)
    ensures NoClash(n, orgs, rows) ==>
              forall k | 0 <= k < |rows| :: Given(n, orgs, rows, k) == FirstChoice(n, orgs, rows, rows[k])
  {
    if NoClash(n, orgs, rows) {
      forall rows', k' | multiset(rows') == multiset(rows) && 0 <= k' < |rows'|
        ensures Given(n, orgs, rows', k') == FirstChoice(n, orgs, rows, rows'[k'])
      {
        NoClashMeansSame(n, orgs, rows, rows', k');
      }
    } else {
      var r, q :| r in rows && q in rows && r != q && Clash(FirstChoice(n, orgs, rows, r), FirstChoice(n, orgs, rows, q));
      var i :| 0 <= i < |rows| && rows[i] == r;
      var j :| 0 <= j < |rows| && rows[j] == q;
      ClashMakesOrderMatter(n, orgs, rows, i, j);
    }
  }

  // What a row wants first, spelled out.

  lemma {:induction false} FirstChoiceIs(u: Unicode, orgs: seq<OrgAgent>, rows: seq<ProjectAgent>, row: ProjectAgent)
    requires u.Sane()
    ensures var slug, safe := ProjectSlug(u, row.project), SafeName(row.name);
      var short, long := AliasName(slug, safe), AliasWithId(slug, safe, row.id);
      FirstChoice(Spelling(u), orgs, rows, row) ==
      if row.aliasable && ClaimedTwice(orgs, rows, row) then
        if short !in OrgNames(orgs) then Some(Attempt(short, short + ".md"))
        else if long !in OrgNames(orgs) then Some(Attempt(long, long + ".md"))
        else None
      else if row.name in OrgNames(orgs) then None
      else Some(Attempt(row.name, if safe + ".md" !in OrgFilenames(Spelling(u), orgs) then safe + ".md" else short + ".md"))
  {
    var n, slug, safe := Spelling(u), ProjectSlug(u, row.project), SafeName(row.name);
    OrgsAreClaimed(n, orgs);
    ProjectSlugIsClean(u, row.project);
    SafeNameIsClean(row.name);
    SafeNameHasNoSeparator(row.name);
    TailWithIdIsClean(safe, row.id);
    AliasWithIdIsAlias(slug, safe, row.id);
    AliasIsNoOrgFilename(u, orgs, slug, safe);
    AliasIsNoOrgFilename(u, orgs, slug, TailOf(row));
    FirstOfThree(ClaimOrgs(n, orgs), Attempts(u, row, ClaimedTwice(orgs, rows, row)));
  }

  lemma {:induction false} FirstOfThree(st: State, attempts: seq<Attempt>)
    requires 2 <= |attempts| <= 3
    ensures FirstFree(st, attempts) ==
            if Free(st, attempts[0]) then Some(attempts[0])
            else if Free(st, attempts[1]) then Some(attempts[1])
            else if |attempts| == 3 && Free(st, attempts[2]) then Some(attempts[2])
            else None
  {
    assert attempts[1..][0] == attempts[1];
    if |attempts| == 3 {
      assert attempts[1..][1..][0] == attempts[2];
      assert attempts[1..][1..][1..] == [];
    } else {
      assert attempts[1..][1..] == [];
    }
  }

  /** Two aliasable rows, each of a name claimed twice, with one slug and one safe name: the plain alias goes to whichever comes
      first, unless an org agent bears it. */
  lemma {:induction false} OneAliasForTwo(u: Unicode, orgs: seq<OrgAgent>, rows: seq<ProjectAgent>, i: nat, j: nat)
    requires u.Sane() && i < |rows| && j < |rows| && rows[i] != rows[j]
    requires rows[i].aliasable && rows[j].aliasable && ClaimedTwice(orgs, rows, rows[i]) && ClaimedTwice(orgs, rows, rows[j])
    requires ProjectSlug(u, rows[i].project) == ProjectSlug(u, rows[j].project) && SafeName(rows[i].name) == SafeName(rows[j].name)
    requires AliasName(ProjectSlug(u, rows[i].project), SafeName(rows[i].name)) !in OrgNames(orgs)
    ensures !SameInEveryOrder(Spelling(u), orgs, rows)
  {
    FirstChoiceIs(u, orgs, rows, rows[i]);
    FirstChoiceIs(u, orgs, rows, rows[j]);
    ClashMakesOrderMatter(Spelling(u), orgs, rows, i, j);
  }

  /** The plainest case: two namesakes in projects of one slug. The first gets `slug--name`, the second that with its id; so the
      two swap names with the order. */
  lemma {:induction false} NamesakesSwapNames(u: Unicode, orgs: seq<OrgAgent>, rows: seq<ProjectAgent>)
    requires u.Sane() && |rows| == 2 && rows[0].aliasable && rows[1].aliasable && rows[0].name == rows[1].name
    requires ProjectSlug(u, rows[0].project) == ProjectSlug(u, rows[1].project)
    requires var slug, safe := ProjectSlug(u, rows[0].project), SafeName(rows[0].name);
      AliasName(slug, safe) !in OrgNames(orgs) && AliasWithId(slug, safe, rows[1].id) !in OrgNames(orgs)
    ensures ContestedAt(Spelling(u), orgs, rows, 0) && ContestedAt(Spelling(u), orgs, rows, 1)
    ensures var slug, safe := ProjectSlug(u, rows[0].project), SafeName(rows[0].name);
      var short, long := AliasName(slug, safe), AliasWithId(slug, safe, rows[1].id);
      && Given(Spelling(u), orgs, rows, 0) == Some(Attempt(short, short + ".md"))
      && Given(Spelling(u), orgs, rows, 1) == Some(Attempt(long, long + ".md"))
  {
    var n := Spelling(u);
    TwoClaim(rows, 0, 1);
    RowOutcome(n, orgs, rows, 0);
    RowOutcome(n, orgs, rows, 1);
    FirstChoiceIs(u, orgs, rows, rows[0]);
    FirstRowGetsItsChoice(n, orgs, rows);
    SecondGetsLongAlias(u, orgs, rows);
  }

  lemma {:induction false} SecondGetsLongAlias(u: Unicode, orgs: seq<OrgAgent>, rows: seq<ProjectAgent>)
    requires u.Sane() && |rows| >= 2 && rows[1].aliasable && ContestedAt(Spelling(u), orgs, rows, 1)
    requires var slug, safe := ProjectSlug(u, rows[1].project), SafeName(rows[1].name);
      && Given(Spelling(u), orgs, rows, 0) == Some(Attempt(AliasName(slug, safe), AliasName(slug, safe) + ".md"))
      && AliasWithId(slug, safe, rows[1].id) !in OrgNames(orgs)
    ensures var long := AliasWithId(ProjectSlug(u, rows[1].project), SafeName(rows[1].name), rows[1].id);
      Given(Spelling(u), orgs, rows, 1) == Some(Attempt(long, long + ".md"))
  {
    var n, row, st := Spelling(u), rows[1], After(Spelling(u), orgs, rows, 1);
    var slug, safe := ProjectSlug(u, row.project), SafeName(row.name);
    var short, long := AliasName(slug, safe), AliasWithId(slug, safe, row.id);
    GivenIsFirstFree(n, orgs, rows, 0);
    GivenIsFirstFree(n, orgs, rows, 1);
    OrgsAreClaimed(n, orgs);
    ProjectSlugIsClean(u, row.project);
    SafeNameIsClean(row.name);
    SafeNameHasNoSeparator(row.name);
    TailWithIdIsClean(safe, row.id);
    AliasWithIdIsAlias(slug, safe, row.id);
    AliasIsNoOrgFilename(u, orgs, slug, TailOf(row));
    assert After(n, orgs, rows, 0) == ClaimOrgs(n, orgs);
    assert |short| < |long|;
    SameStem(short, long);
    assert short in st.claimed.Keys && long !in st.claimed.Keys && long + ".md" !in st.seen;
    FirstOfThree(st, Attempts(u, row, true));
  }

  /** Being contested does not tell: a name without a double dash is nobody's alias. */
  lemma {:induction false} PlainNameIsNoAlias(u: Unicode, row: ProjectAgent, name: string)
    requires u.Sane() && !HasDouble(name)
    ensures !Generates(Spelling(u), row, name)
  {
    if Generates(Spelling(u), row, name) {
      var a :| a in Spelling(u).attempts(row, true) && a.invocable == name;
      AttemptsAreSpelled(u, row, true, a);
    }
  }

  // Row by row: a row no other is a rival of keeps its name in every order, whatever the others do to each other.

  lemma {:induction false} OthersAreDistinct(rows: seq<ProjectAgent>, rows': seq<ProjectAgent>, k: nat, k': nat, j: nat)
    requires DistinctIds(rows) && multiset(rows) == multiset(rows')
    requires k < |rows| && j < k' < |rows'| && rows[k] == rows'[k']
    ensures rows'[j] in rows && rows'[j] != rows[k]
  {
    IdsStayDistinct(rows, rows');
    MembersAgree(rows, rows', rows'[j]);
  }

  /** An aliasable row of a name claimed twice is linked under its plain alias in every order, when no org agent bears that alias
      and no other row is a rival for it. */
  lemma {:induction false} UnrivalledAliasIsKept(u: Unicode, orgs: seq<OrgAgent>, rows: seq<ProjectAgent>, k: nat,
          rows': seq<ProjectAgent>, k': nat)
    requires u.Sane() && DistinctIds(rows) && multiset(rows) == multiset(rows')
    requires k < |rows| && k' < |rows'| && rows[k] == rows'[k']
    requires rows[k].aliasable && ClaimedTwice(orgs, rows, rows[k])
    requires var slug, safe := ProjectSlug(u, rows[k].project), SafeName(rows[k].name);
      AliasName(slug, safe) !in OrgNames(orgs) && forall r | r in rows && r != rows[k] :: !Rivals(u, r, slug, safe)
    ensures var alias := AliasName(ProjectSlug(u, rows[k].project), SafeName(rows[k].name));
      Given(Spelling(u), orgs, rows', k') == Some(Attempt(alias, alias + ".md"))
  {
    var n, row := Spelling(u), rows[k];
    var slug, safe := ProjectSlug(u, row.project), SafeName(row.name);
    ClaimantsIgnoreOrder(rows, rows', row.name);
    RowOutcome(n, orgs, rows', k');
    GivenIsFirstFree(n, orgs, rows', k');
    ProjectSlugIsClean(u, row.project);
    SafeNameIsClean(row.name);
    forall j | 0 <= j < k'
      ensures !Rivals(u, rows'[j], slug, safe)
    {
      OthersAreDistinct(rows, rows', k, k', j);
    }
    if !Free(After(n, orgs, rows', k'), Attempts(u, row, true)[0]) {
      TakenIsRivalled(u, orgs, rows', k', slug, safe);
    }
    FirstOfThree(After(n, orgs, rows', k'), Attempts(u, row, true));
  }

  lemma {:induction false} FileTakenHasRival(u: Unicode, orgs: seq<OrgAgent>, rows: seq<ProjectAgent>, k: nat, slug: string, tail: string)
    requires k <= |rows| && Clean(slug) && Clean(tail) && AliasName(slug, tail) + ".md" in After(Spelling(u), orgs, rows, k).seen
    ensures exists j | 0 <= j < k :: Rivals(u, rows[j], slug, tail)
  {
    var file := AliasName(slug, tail) + ".md";
    FilesHaveSources(Spelling(u), orgs, rows, k, file);
    AliasIsNoOrgFilename(u, orgs, slug, tail);
    var j :| 0 <= j < k && SpellsFile(Spelling(u), rows[j], file);
    var a, contested :| a in Spelling(u).attempts(rows[j], contested) && a.filename == file;
    SpellerIsRival(u, rows[j], slug, tail, a, contested);
  }

  /** A row of a name claimed once is linked under that name in every order, when the name is no row's alias and no other row is
      a rival for its last filename. */
  lemma {:induction false} UnrivalledNameIsKept(u: Unicode, orgs: seq<OrgAgent>, rows: seq<ProjectAgent>, k: nat,
          rows': seq<ProjectAgent>, k': nat)
    requires u.Sane() && DistinctIds(rows) && multiset(rows) == multiset(rows')
    requires k < |rows| && k' < |rows'| && rows[k] == rows'[k']
    requires !ClaimedTwice(orgs, rows, rows[k]) && forall r | r in rows :: !Generates(Spelling(u), r, rows[k].name)
    requires forall r | r in rows && r != rows[k] :: !Rivals(u, r, ProjectSlug(u, rows[k].project), TailOf(rows[k]))
    ensures var a := Given(Spelling(u), orgs, rows', k'); a.Some? && a.value.invocable == rows[k].name
  {
    var n, row := Spelling(u), rows[k];
    var slug := ProjectSlug(u, row.project);
    SpellingRenames(u);
    ContestedInEveryOrder(n, orgs, rows, k, rows', k');
    NotContestedAlone(n, orgs, rows, k);
    GivenIsFirstFree(n, orgs, rows', k');
    forall j | 0 <= j < k'
      ensures !Rivals(u, rows'[j], slug, TailOf(row))
    {
      OthersAreDistinct(rows, rows', k, k', j);
    }
    LastFilenameIsFree(u, orgs, rows', k');
  }

  lemma {:induction false} NotContestedAlone(n: Naming, orgs: seq<OrgAgent>, rows: seq<ProjectAgent>, k: nat)
    requires RenamesContested(n) && k < |rows| && !ClaimedTwice(orgs, rows, rows[k])
    requires forall r | r in rows :: !Generates(n, r, rows[k].name)
    ensures !ContestedAt(n, orgs, rows, k)
  {
    ContestedIff(n, orgs, rows, k);
    if GeneratedBefore(After(n, orgs, rows, k), rows[k].name) {
      GeneratedHasSource(n, orgs, rows, k, rows[k].name);
    }
  }

  lemma {:induction false} LastFilenameIsFree(u: Unicode, orgs: seq<OrgAgent>, rows: seq<ProjectAgent>, k: nat)
    requires u.Sane() && k < |rows| && !ContestedAt(Spelling(u), orgs, rows, k)
    requires forall j | 0 <= j < k :: !Rivals(u, rows[j], ProjectSlug(u, rows[k].project), TailOf(rows[k]))
    ensures FirstFree(After(Spelling(u), orgs, rows, k), Attempts(u, rows[k], false)).Some?
  {
    var row, st := rows[k], After(Spelling(u), orgs, rows, k);
    var slug, safe := ProjectSlug(u, row.project), SafeName(row.name);
    ProjectSlugIsClean(u, row.project);
    SafeNameIsClean(row.name);
    SafeNameHasNoSeparator(row.name);
    TailWithIdIsClean(safe, row.id);
    AliasWithIdIsAlias(slug, safe, row.id);
    if AliasName(slug, TailOf(row)) + ".md" in st.seen {
      FileTakenHasRival(u, orgs, rows, k, slug, TailOf(row));
    }
    assert Attempts(u, row, false)[2] in Attempts(u, row, false) && Free(st, Attempts(u, row, false)[2]);
  }
}
