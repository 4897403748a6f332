/** Splitting a turn's cost across the projects it touched. */
module Attribution {
  import opened Text

  datatype EventKind = Stop | PostToolUse | Other

  /** One row of `agent_events`; its id is its place in the table, from 1. */
  datatype Event = Event(session: string, kind: EventKind, project: Option<int>)

  /** One row of `session_project_costs`. */
  datatype LedgerRow = LedgerRow(session: string, project: int, tokensIn: int, tokensOut: int, cost: real)

  /** One group of the touch query: a project and how often the turn touched it. */
  datatype Touch = Touch(project: int, count: nat)

  /** The id of the session's last Stop, or 0. */
  function PrevStop(events: seq<Event>, session: string): (id: nat)
    ensures id <= |events|
  {
    if events == [] then 0
    else if events[|events| - 1].kind == Stop && events[|events| - 1].session == session then |events|
    else PrevStop(events[..|events| - 1], session)
  }

  predicate Touches(e: Event, session: string) {
    e.session == session && e.project.Some?
  }

  /** One more touch of a project, in the groups so far. */
  function AddTouch(groups: seq<Touch>, project: int): seq<Touch> {
    if groups == [] then [Touch(project, 1)]
    else if groups[0].project == project then [Touch(project, groups[0].count + 1)] + groups[1..]
    else [groups[0]] + AddTouch(groups[1..], project)
  }

  function GroupTouches(window: seq<Event>, session: string): seq<Touch> {
    if window == [] then []
    else
      var groups, e := GroupTouches(window[..|window| - 1], session), window[|window| - 1];
      if Touches(e, session) then AddTouch(groups, e.project.value) else groups
  }

  function Total(groups: seq<Touch>): nat {
    if groups == [] then 0 else Total(groups[..|groups| - 1]) + groups[|groups| - 1].count
  }

  /** The turn's groups: touched projects, else the session's project, else the workspace's, else nobody. */
  function TurnGroups(events: seq<Event>, session: string, bucket: Option<int>, workspace: Option<int>): seq<Touch> {
    var touched := GroupTouches(events[PrevStop(events, session)..], session);
    if touched != [] then touched
    else if bucket.Some? then [Touch(bucket.value, 1)]
    else if workspace.Some? then [Touch(workspace.value, 1)]
    else []
  }

  /** Python's `round`: to the nearest integer, halves to even. */
  function Round(x: real): int {
    var down := x.Floor;
    var rest := x - down as real;
    if rest < 0.5 then down else if rest > 0.5 then down + 1 else if down % 2 == 0 then down else down + 1
  }

  lemma {:induction false} RoundIsNear(x: real)
    ensures -0.5 <= Round(x) as real - x <= 0.5
  {
  }

  function Share(amount: real, count: nat, total: nat): real
    requires total > 0
  {
    amount * (count as real / total as real)
  }

  function LedgerIndex(ledger: seq<LedgerRow>, session: string, project: int): (found: Option<nat>)
    ensures found.Some? ==> found.value < |ledger| && ledger[found.value].session == session && ledger[found.value].project == project
    ensures found.None? ==> forall i | 0 <= i < |ledger| :: !(ledger[i].session == session && ledger[i].project == project)
  {
    if ledger == [] then None
    else
      var last := |ledger| - 1;
      if ledger[last].session == session && ledger[last].project == project then Some(last)
      else LedgerIndex(ledger[..last], session, project)
  }

  /** The ledger's upsert: insert the row, or add to it. */
  function Credit(ledger: seq<LedgerRow>, row: LedgerRow): seq<LedgerRow> {
    match LedgerIndex(ledger, row.session, row.project)
    case None => ledger + [row]
    case Some(i) =>
      var r := ledger[i];
      ledger[i := LedgerRow(r.session, r.project, r.tokensIn + row.tokensIn, r.tokensOut + row.tokensOut, r.cost + row.cost)]
  }

  datatype Turn = Turn(session: string, cost: real, tokensIn: int, tokensOut: int)

  function ShareRow(turn: Turn, g: Touch, total: nat): LedgerRow
    requires total > 0
  {
    LedgerRow(turn.session, g.project,
              Round(Share(turn.tokensIn as real, g.count, total)), Round(Share(turn.tokensOut as real, g.count, total)),
              Share(turn.cost, g.count, total))
  }

  function Distribute(ledger: seq<LedgerRow>, turn: Turn, groups: seq<Touch>, total: nat): seq<LedgerRow>
    requires total > 0
  {
    if groups == [] then ledger
    else Credit(Distribute(ledger, turn, groups[..|groups| - 1], total), ShareRow(turn, groups[|groups| - 1], total))
  }

  /** The turn reaches the ledger: it has something to record and someone to record it for. */
  predicate IsAttributed(turn: Turn, groups: seq<Touch>) {
    !(turn.cost <= 0.0 && turn.tokensIn == 0 && turn.tokensOut == 0) && groups != []
  }

  /** `attribute_turn_cost`. */
  function Attribute(ledger: seq<LedgerRow>, turn: Turn, groups: seq<Touch>): seq<LedgerRow>
    requires forall g | g in groups :: g.count > 0
  {
    if !IsAttributed(turn, groups) then ledger
    else
      TotalIsPositive(groups);
      Distribute(ledger, turn, groups, Total(groups))
  }

  lemma {:induction false} TotalIsPositive(groups: seq<Touch>)
    requires groups != [] && forall g | g in groups :: g.count > 0
    ensures Total(groups) > 0
  {
  }

  lemma {:induction false} AddTouchFacts(groups: seq<Touch>, project: int)
    requires forall g | g in groups :: g.count > 0
    ensures forall g | g in AddTouch(groups, project) :: g.count > 0
    ensures AddTouch(groups, project) != []
  {
    if groups != [] && groups[0].project != project {
      AddTouchFacts(groups[1..], project);
    }
  }

  lemma {:induction false} GroupsArePositive(window: seq<Event>, session: string)
    ensures forall g | g in GroupTouches(window, session) :: g.count > 0
  {
    if window != [] {
      GroupsArePositive(window[..|window| - 1], session);
      if window[|window| - 1].project.Some? {
        AddTouchFacts(GroupTouches(window[..|window| - 1], session), window[|window| - 1].project.value);
      }
    }
  }

  lemma {:induction false} TurnGroupsArePositive(events: seq<Event>, session: string, bucket: Option<int>, workspace: Option<int>)
    ensures forall g | g in TurnGroups(events, session, bucket, workspace) :: g.count > 0
  {
    GroupsArePositive(events[PrevStop(events, session)..], session);
  }

  // The groups are the touch counts of the window.

  function TouchCount(window: seq<Event>, session: string, project: int): nat {
    if window == [] then 0
    else
      var e := window[|window| - 1];
      TouchCount(window[..|window| - 1], session, project) + if e.session == session && e.project == Some(project) then 1 else 0
  }

  predicate DistinctProjects(groups: seq<Touch>) {
    forall i, j | 0 <= i < j < |groups| :: groups[i].project != groups[j].project
  }

  function CountIn(groups: seq<Touch>, project: int): nat {
    if groups == [] then 0
    else if groups[0].project == project then groups[0].count
    else CountIn(groups[1..], project)
  }

  lemma {:induction false} AddTouchAddsOne(groups: seq<Touch>, project: int, other: int)
    ensures CountIn(AddTouch(groups, project), other) == CountIn(groups, other) + if other == project then 1 else 0
    ensures forall g | g in AddTouch(groups, project) :: g.project == project || exists g' | g' in groups :: g'.project == g.project
    ensures DistinctProjects(groups) ==> DistinctProjects(AddTouch(groups, project))
  {
    if groups != [] && groups[0].project != project {
      AddTouchAddsOne(groups[1..], project, other);
      var rest := AddTouch(groups[1..], project);
      assert ([groups[0]] + rest)[1..] == rest;
      if DistinctProjects(groups) {
        assert forall i | 0 <= i < |groups[1..]| :: groups[1..][i] == groups[i + 1];
        forall j | 0 <= j < |rest|
          ensures rest[j].project != groups[0].project
        {
          assert rest[j] in rest;
          if rest[j].project != project {
            var g :| g in groups[1..] && g.project == rest[j].project;
            var k :| 0 <= k < |groups[1..]| && groups[1..][k] == g;
            assert groups[k + 1] == g;
          }
        }
      }
    } else if groups != [] {
      assert AddTouch(groups, project)[1..] == groups[1..];
    }
  }

  /** One group per touched project, holding how often the session touched it in the window. */
  lemma {:induction false} GroupsCountTouches(window: seq<Event>, session: string, project: int)
    ensures CountIn(GroupTouches(window, session), project) == TouchCount(window, session, project)
    ensures DistinctProjects(GroupTouches(window, session))
  {
    if window != [] {
      var front, e := window[..|window| - 1], window[|window| - 1];
      GroupsCountTouches(front, session, project);
      if Touches(e, session) {
        AddTouchAddsOne(GroupTouches(front, session), e.project.value, project);
      }
    }
  }

  // The ledger's arithmetic.

  function SessionCost(ledger: seq<LedgerRow>, session: string): real {
    if ledger == [] then 0.0
    else SessionCost(ledger[..|ledger| - 1], session) + if ledger[|ledger| - 1].session == session then ledger[|ledger| - 1].cost else 0.0
  }

  datatype Direction = Inbound | Outbound

  function RowTokens(row: LedgerRow, d: Direction): int {
    if d == Inbound then row.tokensIn else row.tokensOut
  }

  function TurnTokens(turn: Turn, d: Direction): int {
    if d == Inbound then turn.tokensIn else turn.tokensOut
  }

  function SessionTokens(ledger: seq<LedgerRow>, session: string, d: Direction): int {
    if ledger == [] then 0
    else
      var last := ledger[|ledger| - 1];
      SessionTokens(ledger[..|ledger| - 1], session, d) + if last.session == session then RowTokens(last, d) else 0
  }

  lemma {:induction false} UpdateMovesSums(ledger: seq<LedgerRow>, i: nat, row: LedgerRow, session: string, d: Direction)
    requires i < |ledger| && row.session == ledger[i].session
    ensures SessionCost(ledger[i := row], session) == SessionCost(ledger, session) + if row.session == session then row.cost - ledger[i].cost else 0.0
    ensures SessionTokens(ledger[i := row], session, d) == SessionTokens(ledger, session, d) + if row.session == session then RowTokens(row, d) - RowTokens(ledger[i], d) else 0
  {
    var last := |ledger| - 1;
    if i == last {
      assert ledger[i := row][..last] == ledger[..last];
    } else {
      assert ledger[i := row][..last] == ledger[..last][i := row];
      UpdateMovesSums(ledger[..last], i, row, session, d);
    }
  }

  lemma {:induction false} CreditMovesSums(ledger: seq<LedgerRow>, row: LedgerRow, session: string, d: Direction)
    ensures SessionCost(Credit(ledger, row), session) == SessionCost(ledger, session) + if row.session == session then row.cost else 0.0
    ensures SessionTokens(Credit(ledger, row), session, d) == SessionTokens(ledger, session, d) + if row.session == session then RowTokens(row, d) else 0
  {
    match LedgerIndex(ledger, row.session, row.project)
    case None =>
      assert (ledger + [row])[..|ledger|] == ledger;
    case Some(i) =>
      UpdateMovesSums(ledger, i, Credit(ledger, row)[i], session, d);
  }

  lemma {:induction false} SharesAdd(amount: real, a: nat, b: nat, total: nat)
    requires total > 0
    ensures Share(amount, a + b, total) == Share(amount, a, total) + Share(amount, b, total)
  {
  }

  lemma {:induction false} WholeShare(amount: real, total: nat)
    requires total > 0
    ensures Share(amount, total, total) == amount
    ensures Share(amount, 0, total) == 0.0
  {
  }

  lemma {:induction false} DistributeMovesCost(ledger: seq<LedgerRow>, turn: Turn, groups: seq<Touch>, total: nat)
    requires total > 0
    ensures SessionCost(Distribute(ledger, turn, groups, total), turn.session)
         == SessionCost(ledger, turn.session) + Share(turn.cost, Total(groups), total)
  {
    if groups == [] {
      WholeShare(turn.cost, total);
    } else {
      var front, g := groups[..|groups| - 1], groups[|groups| - 1];
      DistributeMovesCost(ledger, turn, front, total);
      var share, rest := Share(turn.cost, g.count, total), Share(turn.cost, Total(front), total);
      SharesAdd(turn.cost, Total(front), g.count, total);
      assert Share(turn.cost, Total(groups), total) == rest + share;
      CreditMovesSums(Distribute(ledger, turn, front, total), ShareRow(turn, g, total), turn.session, Inbound);
      assert ShareRow(turn, g, total).cost == share;
    }
  }

  /** How far the ledger's tokens are from the exact shares. */
  function TokenDrift(ledger: seq<LedgerRow>, turn: Turn, groups: seq<Touch>, total: nat, d: Direction): real
    requires total > 0
  {
    (SessionTokens(Distribute(ledger, turn, groups, total), turn.session, d) - SessionTokens(ledger, turn.session, d)) as real
    - Share(TurnTokens(turn, d) as real, Total(groups), total)
  }

  function ShareOf(amount: real, total: nat): nat -> real
    requires total > 0
  {
    (count: nat) => Share(amount, count, total)
  }

  function ExactSum(groups: seq<Touch>, share: nat -> real): real {
    if groups == [] then 0.0 else ExactSum(groups[..|groups| - 1], share) + share(groups[|groups| - 1].count)
  }

  function RoundedSum(groups: seq<Touch>, share: nat -> real): int {
    if groups == [] then 0 else RoundedSum(groups[..|groups| - 1], share) + Round(share(groups[|groups| - 1].count))
  }

  /** Rounding share by share is off by at most half for each. */
  lemma {:induction false} RoundedIsNear(groups: seq<Touch>, share: nat -> real)
    ensures -(|groups| as real / 2.0) <= RoundedSum(groups, share) as real - ExactSum(groups, share) <= |groups| as real / 2.0
  {
    if groups != [] {
      RoundedIsNear(groups[..|groups| - 1], share);
      RoundIsNear(share(groups[|groups| - 1].count));
    }
  }

  lemma {:induction false} ExactIsShare(groups: seq<Touch>, amount: real, total: nat)
    requires total > 0
    ensures ExactSum(groups, ShareOf(amount, total)) == Share(amount, Total(groups), total)
  {
    if groups == [] {
      WholeShare(amount, total);
    } else {
      ExactIsShare(groups[..|groups| - 1], amount, total);
      SharesAdd(amount, Total(groups[..|groups| - 1]), groups[|groups| - 1].count, total);
    }
  }

  lemma {:induction false} TokensAreRounded(ledger: seq<LedgerRow>, turn: Turn, groups: seq<Touch>, total: nat, d: Direction)
    requires total > 0
    ensures SessionTokens(Distribute(ledger, turn, groups, total), turn.session, d)
         == SessionTokens(ledger, turn.session, d) + RoundedSum(groups, ShareOf(TurnTokens(turn, d) as real, total))
  {
    if groups != [] {
      TokensAreRounded(ledger, turn, groups[..|groups| - 1], total, d);
      TokensGrow(ledger, turn, groups[..|groups| - 1], groups, total, d);
    }
  }

  lemma {:induction false} TokenDriftIsSmall(ledger: seq<LedgerRow>, turn: Turn, groups: seq<Touch>, total: nat, d: Direction)
    requires total > 0
    ensures -(|groups| as real / 2.0) <= TokenDrift(ledger, turn, groups, total, d) <= |groups| as real / 2.0
  {
    TokensAreRounded(ledger, turn, groups, total, d);
    RoundedIsNear(groups, ShareOf(TurnTokens(turn, d) as real, total));
    ExactIsShare(groups, TurnTokens(turn, d) as real, total);
  }

  lemma {:induction false} TokensGrow(ledger: seq<LedgerRow>, turn: Turn, front: seq<Touch>, groups: seq<Touch>, total: nat, d: Direction)
    requires total > 0 && groups != [] && front == groups[..|groups| - 1]
    ensures SessionTokens(Distribute(ledger, turn, groups, total), turn.session, d)
         == SessionTokens(Distribute(ledger, turn, front, total), turn.session, d)
            + Round(Share(TurnTokens(turn, d) as real, groups[|groups| - 1].count, total))
  {
    var row := ShareRow(turn, groups[|groups| - 1], total);
    CreditMovesSums(Distribute(ledger, turn, front, total), row, turn.session, d);
  }

  lemma {:induction false} DistributeLeavesOthers(ledger: seq<LedgerRow>, turn: Turn, groups: seq<Touch>, total: nat,
          session: string)
    requires total > 0 && session != turn.session
    ensures SessionCost(Distribute(ledger, turn, groups, total), session) == SessionCost(ledger, session)
  {
    if groups != [] {
      var front := groups[..|groups| - 1];
      DistributeLeavesOthers(ledger, turn, front, total, session);
      CreditMovesSums(Distribute(ledger, turn, front, total), ShareRow(turn, groups[|groups| - 1], total), session, Inbound);
    }
  }

  /** A turn's whole cost lands on its own session's rows, or none of it does; tokens drift by half a token per project at most. */
  lemma {:induction false} AttributeConserves(ledger: seq<LedgerRow>, turn: Turn, groups: seq<Touch>,
          session: string, d: Direction)
    requires forall g | g in groups :: g.count > 0
    ensures SessionCost(Attribute(ledger, turn, groups), session)
         == SessionCost(ledger, session) + if session == turn.session && IsAttributed(turn, groups) then turn.cost else 0.0
    ensures var drift := SessionTokens(Attribute(ledger, turn, groups), turn.session, d) - SessionTokens(ledger, turn.session, d) - TurnTokens(turn, d);
      IsAttributed(turn, groups) ==> -(|groups| as real / 2.0) <= drift as real <= |groups| as real / 2.0
  {
    if IsAttributed(turn, groups) {
      TotalIsPositive(groups);
      DistributeMovesCost(ledger, turn, groups, Total(groups));
      TokenDriftIsSmall(ledger, turn, groups, Total(groups), d);
      WholeShare(turn.cost, Total(groups));
      WholeShare(TurnTokens(turn, d) as real, Total(groups));
      if session != turn.session {
        DistributeLeavesOthers(ledger, turn, groups, Total(groups), session);
      }
    }
  }

  // Whose row gets what.

  predicate IsRowOf(row: LedgerRow, session: string, project: int) {
    row.session == session && row.project == project
  }

  function ProjectCost(ledger: seq<LedgerRow>, session: string, project: int): real {
    if ledger == [] then 0.0
    else
      var last := ledger[|ledger| - 1];
      ProjectCost(ledger[..|ledger| - 1], session, project) + if IsRowOf(last, session, project) then last.cost else 0.0
  }

  function ProjectTokens(ledger: seq<LedgerRow>, session: string, project: int, d: Direction): int {
    if ledger == [] then 0
    else
      var last := ledger[|ledger| - 1];
      ProjectTokens(ledger[..|ledger| - 1], session, project, d) + if IsRowOf(last, session, project) then RowTokens(last, d) else 0
  }

  /** How often these groups touch a project. */
  function TouchesOf(groups: seq<Touch>, project: int): nat {
    if groups == [] then 0
    else
      var last := groups[|groups| - 1];
      TouchesOf(groups[..|groups| - 1], project) + if last.project == project then last.count else 0
  }

  lemma {:induction false} UpdateMovesProject(ledger: seq<LedgerRow>, i: nat, row: LedgerRow, session: string, project: int, d: Direction)
    requires i < |ledger| && row.session == ledger[i].session && row.project == ledger[i].project
    ensures ProjectCost(ledger[i := row], session, project)
         == ProjectCost(ledger, session, project) + if IsRowOf(row, session, project) then row.cost - ledger[i].cost else 0.0
    ensures ProjectTokens(ledger[i := row], session, project, d)
         == ProjectTokens(ledger, session, project, d)
            + if IsRowOf(row, session, project) then RowTokens(row, d) - RowTokens(ledger[i], d) else 0
  {
    var last := |ledger| - 1;
    if i == last {
      assert ledger[i := row][..last] == ledger[..last];
    } else {
      assert ledger[i := row][..last] == ledger[..last][i := row];
      UpdateMovesProject(ledger[..last], i, row, session, project, d);
    }
  }

  lemma {:induction false} CreditMovesProject(ledger: seq<LedgerRow>, row: LedgerRow, session: string, project: int, d: Direction)
    ensures ProjectCost(Credit(ledger, row), session, project)
         == ProjectCost(ledger, session, project) + if IsRowOf(row, session, project) then row.cost else 0.0
    ensures ProjectTokens(Credit(ledger, row), session, project, d)
         == ProjectTokens(ledger, session, project, d) + if IsRowOf(row, session, project) then RowTokens(row, d) else 0
  {
    match LedgerIndex(ledger, row.session, row.project)
    case None =>
      assert (ledger + [row])[..|ledger|] == ledger;
    case Some(i) =>
      UpdateMovesProject(ledger, i, Credit(ledger, row)[i], session, project, d);
  }

  /** Each project gets the turn's cost in proportion to its touches; another session's rows and an untouched project get nothing. */
  lemma {:induction false} DistributePaysProjects(ledger: seq<LedgerRow>, turn: Turn, groups: seq<Touch>, total: nat,
          session: string, project: int)
    requires total > 0
    ensures ProjectCost(Distribute(ledger, turn, groups, total), session, project)
         == ProjectCost(ledger, session, project)
            + if session == turn.session then Share(turn.cost, TouchesOf(groups, project), total) else 0.0
  {
    if groups == [] {
      WholeShare(turn.cost, total);
    } else {
      var front, g := groups[..|groups| - 1], groups[|groups| - 1];
      DistributePaysProjects(ledger, turn, front, total, session, project);
      PaysOneMore(ledger, turn, front, g, groups, total, session, project, Inbound);
      ShareGrows(turn.cost, front, g, groups, project, total);
    }
  }

  lemma {:induction false} PaysOneMore(ledger: seq<LedgerRow>, turn: Turn, front: seq<Touch>, g: Touch, groups: seq<Touch>, total: nat,
          session: string, project: int, d: Direction)
    requires total > 0 && groups == front + [g]
    ensures ProjectCost(Distribute(ledger, turn, groups, total), session, project)
         == ProjectCost(Distribute(ledger, turn, front, total), session, project)
            + if session == turn.session && g.project == project then Share(turn.cost, g.count, total) else 0.0
    ensures ProjectTokens(Distribute(ledger, turn, groups, total), session, project, d)
         == ProjectTokens(Distribute(ledger, turn, front, total), session, project, d)
            + if session == turn.session && g.project == project then Round(Share(TurnTokens(turn, d) as real, g.count, total)) else 0
  {
    assert groups[..|groups| - 1] == front;
    CreditMovesProject(Distribute(ledger, turn, front, total), ShareRow(turn, g, total), session, project, d);
  }

  lemma {:induction false} ShareGrows(amount: real, front: seq<Touch>, g: Touch, groups: seq<Touch>, project: int, total: nat)
    requires total > 0 && groups == front + [g]
    ensures Share(amount, TouchesOf(groups, project), total)
         == Share(amount, TouchesOf(front, project), total) + if g.project == project then Share(amount, g.count, total) else 0.0
  {
    assert groups[..|groups| - 1] == front;
    SharesAdd(amount, TouchesOf(front, project), if g.project == project then g.count else 0, total);
    WholeShare(amount, total);
  }

  /** And its tokens in the same proportion, rounded once, when each project is one group. */
  lemma {:induction false} DistributePaysTokens(ledger: seq<LedgerRow>, turn: Turn, groups: seq<Touch>, total: nat,
          session: string, project: int, d: Direction)
    requires total > 0 && DistinctProjects(groups)
    ensures ProjectTokens(Distribute(ledger, turn, groups, total), session, project, d)
         == ProjectTokens(ledger, session, project, d)
            + if session == turn.session then Round(Share(TurnTokens(turn, d) as real, TouchesOf(groups, project), total)) else 0
  {
    if groups == [] {
      NoTokensForNoTouch(turn, total, d);
    } else {
      var front, g := groups[..|groups| - 1], groups[|groups| - 1];
      DistributePaysTokens(ledger, turn, front, total, session, project, d);
      PaysOneMore(ledger, turn, front, g, groups, total, session, project, d);
      if g.project == project {
        UntouchedIsZero(front, project);
        assert TouchesOf(groups, project) == g.count;
        NoTokensForNoTouch(turn, total, d);
      }
    }
  }

  lemma {:induction false} NoTokensForNoTouch(turn: Turn, total: nat, d: Direction)
    requires total > 0
    ensures Round(Share(TurnTokens(turn, d) as real, 0, total)) == 0
  {
    WholeShare(TurnTokens(turn, d) as real, total);
  }

  lemma {:induction false} UntouchedIsZero(groups: seq<Touch>, project: int)
    requires forall g | g in groups :: g.project != project
    ensures TouchesOf(groups, project) == 0
  {
    if groups != [] {
      UntouchedIsZero(groups[..|groups| - 1], project);
    }
  }

  /** The session's touches of any project in a window. */
  function TouchTotal(window: seq<Event>, session: string): nat {
    if window == [] then 0
    else TouchTotal(window[..|window| - 1], session) + if Touches(window[|window| - 1], session) then 1 else 0
  }

  lemma {:induction false} TouchedSplits(groups: seq<Touch>, project: int)
    requires groups != []
    ensures TouchesOf(groups, project) == (if groups[0].project == project then groups[0].count else 0) + TouchesOf(groups[1..], project)
    ensures Total(groups) == groups[0].count + Total(groups[1..])
  {
    if |groups| > 1 {
      TouchedSplits(groups[..|groups| - 1], project);
      assert groups[1..][..|groups| - 2] == groups[..|groups| - 1][1..];
    }
  }

  lemma {:induction false} AddTouchCounts(groups: seq<Touch>, project: int, other: int)
    ensures TouchesOf(AddTouch(groups, project), other) == TouchesOf(groups, other) + if other == project then 1 else 0
    ensures Total(AddTouch(groups, project)) == Total(groups) + 1
  {
    var after := AddTouch(groups, project);
    TouchedSplits(after, other);
    if groups == [] {
      assert after[1..] == [];
    } else {
      TouchedSplits(groups, other);
      if groups[0].project != project {
        AddTouchCounts(groups[1..], project, other);
        assert after[1..] == AddTouch(groups[1..], project);
      } else {
        assert after[1..] == groups[1..];
      }
    }
  }

  /** The groups of a window are its touches, project by project and all together. */
  lemma {:induction false} WindowIsTouched(window: seq<Event>, session: string, project: int)
    ensures TouchesOf(GroupTouches(window, session), project) == TouchCount(window, session, project)
    ensures Total(GroupTouches(window, session)) == TouchTotal(window, session)
  {
    if window != [] {
      var front, e := window[..|window| - 1], window[|window| - 1];
      WindowIsTouched(front, session, project);
      if Touches(e, session) {
        AddTouchCounts(GroupTouches(front, session), e.project.value, project);
      }
    }
  }

  // Turn windows.

  /** Event `e` is counted by the Stop at index `k`. */
  predicate InWindow(events: seq<Event>, session: string, k: nat, e: nat) {
    && e < k < |events| && events[k].kind == Stop && events[k].session == session
    && PrevStop(events[..k], session) <= e
  }

  lemma {:induction false} PrevStopFacts(events: seq<Event>, session: string)
    ensures var id := PrevStop(events, session);
      && (id > 0 ==> events[id - 1].kind == Stop && events[id - 1].session == session)
      && forall i | id <= i < |events| :: !(events[i].kind == Stop && events[i].session == session)
  {
    if events != [] {
      PrevStopFacts(events[..|events| - 1], session);
    }
  }

  /** The first Stop of the session after index `e`. */
  lemma {:induction false} NextStop(events: seq<Event>, session: string, e: nat, stop: nat) returns (k: nat)
    requires e < stop < |events| && events[stop].kind == Stop && events[stop].session == session
    requires !(events[e].kind == Stop && events[e].session == session)
    ensures InWindow(events, session, k, e)
    decreases stop
  {
    PrevStopFacts(events[..stop], session);
    var prev := PrevStop(events[..stop], session);
    if prev <= e {
      k := stop;
    } else {
      assert events[..stop][prev - 1] == events[prev - 1];
      k := NextStop(events, session, e, prev - 1);
    }
  }

  /** Every event that a later Stop can count is counted by exactly one. */
  lemma {:induction false} WindowsPartition(events: seq<Event>, session: string, e: nat, stop: nat)
    requires e < stop < |events| && events[stop].kind == Stop && events[stop].session == session
    requires !(events[e].kind == Stop && events[e].session == session)
    ensures exists k :: InWindow(events, session, k, e)
    ensures forall k, k' :: InWindow(events, session, k, e) && InWindow(events, session, k', e) ==> k == k'
  {
    var next := NextStop(events, session, e, stop);
    forall k: nat, k': nat | InWindow(events, session, k, e) && InWindow(events, session, k', e)
      ensures k == k'
    {
      assert k < k' ==> events[..k'][k] == events[k];
      assert k' < k ==> events[..k][k'] == events[k'];
      PrevStopFacts(events[..k], session);
      PrevStopFacts(events[..k'], session);
    }
  }
}
