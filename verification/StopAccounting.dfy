/** Stop hooks, tool hooks and vendor totals on the session rows, the event log and the project ledger. */
module StopAccounting {
  import opened Text
  import opened LaneReconciler
  import opened Attribution

  datatype Status = Active | Idle

  datatype Session = Session(project: Option<int>, status: Status, tokensIn: int, tokensOut: int, cost: real,
                             contextTokens: int, model: Option<string>)

  /** The last turn's usage, read from the transcript. */
  datatype Usage = Usage(input: int, output: int, cacheRead: int, cacheCreation: int)

  /** The hook lane's estimate: every model at one set of rates. */
  function CostDelta(u: Usage): real {
    (u.input as real * 3.0 + u.cacheRead as real * 0.30 + u.output as real * 15.0) / 1000000.0
  }

  function ContextTokensOf(u: Usage): int {
    u.input + u.cacheRead + u.cacheCreation
  }

  function TurnOf(session: string, u: Usage): Turn {
    Turn(session, CostDelta(u), u.input, u.output)
  }

  datatype Db = Db(sessions: map<string, Session>, events: seq<Event>, ledger: seq<LedgerRow>, claims: Claims)

  const EMPTY := Db(map[], [], [], map[])

  /** `_upsert_session_start`: a known project is never overwritten. */
  function Touched(sessions: map<string, Session>, session: string, resolved: Option<int>): map<string, Session> {
    if session in sessions then
      var row := sessions[session];
      sessions[session := row.(status := Active, project := if row.project.Some? then row.project else resolved)]
    else sessions[session := Session(resolved, Active, 0, 0, 0.0, 0, None)]
  }

  ghost predicate HookMay(claims: Claims, session: string, field: Field) {
    Applies(claims, session, field, Hook)
  }

  /** The four deltas of a Stop as the claims table spells them. */
  datatype Texts = Texts(tokensIn: string, tokensOut: string, cost: string, context: string)

  ghost function AfterStopClaims(claims: Claims, session: string, texts: Texts, model: Option<string>): Claims
  {
    var c1 := Decided(claims, session, TokensIn, Hook, Clip(Some(texts.tokensIn)));
    var c2 := Decided(c1, session, TokensOut, Hook, Clip(Some(texts.tokensOut)));
    var c3 := Decided(c2, session, CostUsd, Hook, Clip(Some(texts.cost)));
    var c4 := Decided(c3, session, ContextTokens, Hook, Clip(Some(texts.context)));
    if model.Some? then Decided(c4, session, Model, Hook, Clip(model)) else c4
  }

  /** Which of the five money columns the hook lane may write. */
  datatype Granted = Granted(tokensIn: bool, tokensOut: bool, cost: bool, context: bool, model: bool)

  /** Asked of the claims as the Stop finds them. */
  ghost function MayWrite(claims: Claims, session: string, model: Option<string>): Granted {
    Granted(HookMay(claims, session, TokensIn), HookMay(claims, session, TokensOut), HookMay(claims, session, CostUsd),
            HookMay(claims, session, ContextTokens), model.Some? && HookMay(claims, session, Model))
  }

  /** The session row after a Stop: liveness always, each money column only when its claim was granted. */
  function StoppedRow(row: Session, granted: Granted, u: Usage, model: Option<string>): Session {
    Session(row.project, Idle,
            row.tokensIn + (if granted.tokensIn then u.input else 0),
            row.tokensOut + (if granted.tokensOut then u.output else 0),
            row.cost + (if granted.cost then CostDelta(u) else 0.0),
            if granted.context then ContextTokensOf(u) else row.contextTokens,
            if granted.model then model else row.model)
  }

  datatype Step =
    | StopHook(session: string, resolved: Option<int>, usage: Usage, model: Option<string>, workspace: Option<int>, texts: Texts)
    | ToolHook(session: string, resolved: Option<int>, project: Option<int>)
    | OtherHook(session: string, resolved: Option<int>)
    | VendorCost(session: string, cost: real, text: string)
    | VendorTokens(session: string, tokensIn: int, text: string)

  /** The groups a Stop of this session splits its turn over. */
  function GroupsAt(db: Db, step: Step): seq<Touch>
    requires step.StopHook?
  {
    TurnGroups(db.events, step.session, Touched(db.sessions, step.session, step.resolved)[step.session].project, step.workspace)
  }

  ghost function Next(db: Db, step: Step): Db
  {
    match step
    case StopHook(s, resolved, u, model, workspace, texts) =>
      TurnGroupsArePositive(db.events, s, Touched(db.sessions, s, resolved)[s].project, workspace);
      var sessions := Touched(db.sessions, s, resolved);
      Db(sessions[s := StoppedRow(sessions[s], MayWrite(db.claims, s, model), u, model)],
         db.events + [Event(s, Stop, None)],
         Attribute(db.ledger, TurnOf(s, u), GroupsAt(db, step)),
         AfterStopClaims(db.claims, s, texts, model))
    case ToolHook(s, resolved, project) =>
      db.(sessions := Touched(db.sessions, s, resolved), events := db.events + [Event(s, PostToolUse, project)])
    case OtherHook(s, resolved) =>
      db.(sessions := Touched(db.sessions, s, resolved), events := db.events + [Event(s, Other, None)])
    case VendorCost(s, cost, text) =>
      db.(sessions := if s in db.sessions && Applies(db.claims, s, CostUsd, Otlp) then db.sessions[s := db.sessions[s].(cost := cost)] else db.sessions,
          claims := Decided(db.claims, s, CostUsd, Otlp, Clip(Some(text))))
    case VendorTokens(s, tokensIn, text) =>
      db.(sessions := if s in db.sessions && Applies(db.claims, s, TokensIn, Otlp) then db.sessions[s := db.sessions[s].(tokensIn := tokensIn)] else db.sessions,
          claims := Decided(db.claims, s, TokensIn, Otlp, Clip(Some(text))))
  }

  class Recorder {
    var sessions: map<string, Session>
    var events: seq<Event>
    var ledger: seq<LedgerRow>
    const lanes: Provenance

    function Now(): Db
      reads this, lanes
    {
      Db(sessions, events, ledger, lanes.claims)
    }

    constructor ()
      ensures Now() == EMPTY && fresh(lanes)
    {
      sessions, events, ledger := map[], [], [];
      lanes := new Provenance();
    }

    /** The claims a Stop makes, field by field. */
    method ClaimMoney(session: string, model: Option<string>, texts: Texts) returns (granted: Granted)
      modifies lanes
      ensures lanes.claims == AfterStopClaims(old(lanes.claims), session, texts, model)
      ensures granted == MayWrite(old(lanes.claims), session, model)
    {
      ClaimsAreIndependent(lanes.claims, session, texts);
      var tokensIn, _ := lanes.Decide(session, Hook, TokensIn, Some(texts.tokensIn));
      var tokensOut, _ := lanes.Decide(session, Hook, TokensOut, Some(texts.tokensOut));
      var cost, _ := lanes.Decide(session, Hook, CostUsd, Some(texts.cost));
      var context, _ := lanes.Decide(session, Hook, ContextTokens, Some(texts.context));
      granted := Granted(tokensIn, tokensOut, cost, context, false);
      if model.Some? {
        var named, _ := lanes.Decide(session, Hook, Model, model);
        granted := granted.(model := named);
      }
    }

    /** `record_stop`, up to the Stop event. */
    method RecordStop(session: string, resolved: Option<int>, u: Usage, model: Option<string>,
            workspace: Option<int>, texts: Texts)
      modifies this, lanes
      ensures Now() == Next(old(Now()), StopHook(session, resolved, u, model, workspace, texts))
    {
      sessions := Touched(sessions, session, resolved);
      var granted := ClaimMoney(session, model, texts);
      WriteRow(session, granted, u, model);
      AttributeTurn(session, u, workspace);
      events := events + [Event(session, Stop, None)];
    }

    /** The single UPDATE of a Stop, its money columns present only when granted. */
    method WriteRow(session: string, granted: Granted, u: Usage, model: Option<string>)
      requires session in sessions
      modifies this`sessions
      ensures sessions == old(sessions)[session := StoppedRow(old(sessions[session]), granted, u, model)]
    {
      var row := sessions[session].(status := Idle);
      if granted.tokensIn {
        row := row.(tokensIn := row.tokensIn + u.input);
      }
      if granted.tokensOut {
        row := row.(tokensOut := row.tokensOut + u.output);
      }
      if granted.cost {
        row := row.(cost := row.cost + CostDelta(u));
      }
      if granted.context {
        row := row.(contextTokens := ContextTokensOf(u));
      }
      if granted.model {
        row := row.(model := model);
      }
      sessions := sessions[session := row];
    }

    /** `attribute_turn_cost`, run before the Stop event is appended. */
    method AttributeTurn(session: string, u: Usage, workspace: Option<int>)
      requires session in sessions
      modifies this`ledger
      ensures var groups := TurnGroups(events, session, sessions[session].project, workspace);
        (forall g | g in groups :: g.count > 0) && ledger == Attribute(old(ledger), TurnOf(session, u), groups)
    {
      TurnGroupsArePositive(events, session, sessions[session].project, workspace);
      var turn := TurnOf(session, u);
      if turn.cost <= 0.0 && turn.tokensIn == 0 && turn.tokensOut == 0 {
        return;
      }
      var groups := GroupsOf(session, workspace);
      if groups != [] {
        TotalIsPositive(groups);
        SplitOver(turn, groups, Total(groups));
      }
    }

    /** The projects the turn touched, or the session's own project, or the workspace's; nothing when there is none of these. */
    method GroupsOf(session: string, workspace: Option<int>) returns (groups: seq<Touch>)
      requires session in sessions
      ensures groups == TurnGroups(events, session, sessions[session].project, workspace)
    {
      groups := GroupTouches(events[PrevStop(events, session)..], session);
      if groups == [] {
        var bucket := if sessions[session].project.Some? then sessions[session].project else workspace;
        if bucket.Some? {
          groups := [Touch(bucket.value, 1)];
        }
      }
    }

    method SplitOver(turn: Turn, groups: seq<Touch>, total: nat)
      requires total > 0
      modifies this`ledger
      ensures ledger == Distribute(old(ledger), turn, groups, total)
    {
      var i := 0;
      while i < |groups|
        invariant 0 <= i <= |groups|
        invariant ledger == Distribute(old(ledger), turn, groups[..i], total)
      {
        assert groups[..i + 1][..i] == groups[..i];
        ledger := Credit(ledger, ShareRow(turn, groups[i], total));
        i := i + 1;
      }
      assert groups[..i] == groups;
    }

    /** `record_post_tool`: the event carries the project behind the file the tool touched. */
    method RecordPostTool(session: string, resolved: Option<int>, project: Option<int>)
      modifies this
      ensures Now() == Next(old(Now()), ToolHook(session, resolved, project))
    {
      sessions := Touched(sessions, session, resolved);
      events := events + [Event(session, PostToolUse, project)];
    }
  }

  /** Each field's verdict in a Stop is decided by the claims the Stop found, not by the ones it makes along the way. */
  lemma {:induction false} ClaimsAreIndependent(claims: Claims, session: string, texts: Texts)
    ensures var c1 := Decided(claims, session, TokensIn, Hook, Clip(Some(texts.tokensIn)));
      var c2 := Decided(c1, session, TokensOut, Hook, Clip(Some(texts.tokensOut)));
      var c3 := Decided(c2, session, CostUsd, Hook, Clip(Some(texts.cost)));
      var c4 := Decided(c3, session, ContextTokens, Hook, Clip(Some(texts.context)));
      && (HookMay(c1, session, TokensOut) <==> HookMay(claims, session, TokensOut))
      && (HookMay(c2, session, CostUsd) <==> HookMay(claims, session, CostUsd))
      && (HookMay(c3, session, ContextTokens) <==> HookMay(claims, session, ContextTokens))
      && (HookMay(c4, session, Model) <==> HookMay(claims, session, Model))
  {
  }

  /** The events the session's next Stop will look at. */
  function Window(db: Db, session: string): seq<Event> {
    db.events[PrevStop(db.events, session)..]
  }

  /** A tool hook on a project's file is one more touch of that project in its own session's open turn, and nothing else; from
      then on the turn is split by touches, whatever the session's own project. */
  lemma {:induction false} ToolHookIsOneTouch(db: Db, step: Step, session: string, project: int)
    requires step.ToolHook?
    ensures var db' := Next(db, step);
      && TouchCount(Window(db', session), session, project)
         == TouchCount(Window(db, session), session, project)
            + (if session == step.session && step.project == Some(project) then 1 else 0)
      && forall bucket, workspace | session == step.session && step.project == Some(project) ::
           var groups := TurnGroups(db'.events, session, bucket, workspace);
           groups != [] && CountIn(groups, project) == TouchCount(Window(db', session), session, project)
  {
    var db', e := Next(db, step), Event(step.session, PostToolUse, step.project);
    var was, now := Window(db, session), Window(db', session);
    assert db'.events[..|db.events|] == db.events;
    assert PrevStop(db'.events, session) == PrevStop(db.events, session);
    assert now == was + [e];
    assert now[..|was|] == was;
    GroupsCountTouches(now, session, project);
    if session == step.session && step.project == Some(project) {
      TouchedIsGrouped(now, session, project);
    }
  }

  /** The project the session belongs to: the one it has, else the one this hook resolved. */
  function OwnProject(db: Db, step: Step): Option<int>
    requires step.StopHook?
  {
    if step.session in db.sessions && db.sessions[step.session].project.Some? then db.sessions[step.session].project else step.resolved
  }

  /** The groups of a Stop are the touches of its window, or else one touch of the session's own project, or of the workspace's. */
  lemma {:induction false} GroupsAreTouches(db: Db, step: Step, project: int)
    requires step.StopHook?
    ensures var groups, window, own := GroupsAt(db, step), Window(db, step.session), OwnProject(db, step);
      && DistinctProjects(groups) && (forall g | g in groups :: g.count > 0)
      && if TouchTotal(window, step.session) > 0 then
           TouchesOf(groups, project) == TouchCount(window, step.session, project) && Total(groups) == TouchTotal(window, step.session)
         else
           groups == if own.Some? then [Touch(own.value, 1)] else if step.workspace.Some? then [Touch(step.workspace.value, 1)] else []
  {
    var window := Window(db, step.session);
    WindowIsTouched(window, step.session, project);
    GroupsCountTouches(window, step.session, project);
    GroupsArePositive(window, step.session);
    if GroupTouches(window, step.session) != [] {
      TotalIsPositive(GroupTouches(window, step.session));
    }
  }

  /** A Stop pays each project the turn's cost, and its tokens rounded once, in proportion to its groups, and pays nobody else. */
  lemma {:induction false} StopPaysProjects(db: Db, step: Step, session: string, project: int, d: Direction)
    requires step.StopHook?
    ensures var groups, turn := GroupsAt(db, step), TurnOf(step.session, step.usage);
      var before, after := db.ledger, Next(db, step).ledger;
      if session == step.session && IsAttributed(turn, groups) then
        && Total(groups) > 0
        && ProjectCost(after, session, project)
           == ProjectCost(before, session, project) + Share(CostDelta(step.usage), TouchesOf(groups, project), Total(groups))
        && ProjectTokens(after, session, project, d)
           == ProjectTokens(before, session, project, d)
              + Round(Share((if d == Inbound then step.usage.input else step.usage.output) as real, TouchesOf(groups, project), Total(groups)))
      else
        && ProjectCost(after, session, project) == ProjectCost(before, session, project)
        && ProjectTokens(after, session, project, d) == ProjectTokens(before, session, project, d)
  {
    var groups, turn := GroupsAt(db, step), TurnOf(step.session, step.usage);
    GroupsAreTouches(db, step, project);
    if IsAttributed(turn, groups) {
      TotalIsPositive(groups);
      DistributePaysProjects(db.ledger, turn, groups, Total(groups), session, project);
      DistributePaysTokens(db.ledger, turn, groups, Total(groups), session, project, d);
    }
  }

  /** So a turn that touched files is paid for by project exactly as it touched them. */
  lemma {:induction false} StopSplitsByTouches(db: Db, step: Step, project: int)
    requires step.StopHook? && TouchTotal(Window(db, step.session), step.session) > 0 && CostDelta(step.usage) > 0.0
    ensures ProjectCost(Next(db, step).ledger, step.session, project)
         == ProjectCost(db.ledger, step.session, project)
            + Share(CostDelta(step.usage), TouchCount(Window(db, step.session), step.session, project),
                    TouchTotal(Window(db, step.session), step.session))
  {
    GroupsAreTouches(db, step, project);
    StopPaysProjects(db, step, step.session, project, Inbound);
    assert GroupsAt(db, step) != [];
  }

  /** A Stop closes its session's window, and leaves the touches of every other. */
  lemma {:induction false} StopClosesWindow(db: Db, step: Step, session: string, project: int)
    requires step.StopHook?
    ensures session == step.session ==> Window(Next(db, step), session) == []
    ensures session != step.session ==>
              TouchCount(Window(Next(db, step), session), session, project) == TouchCount(Window(db, session), session, project)
  {
    StopMovesWindow(db.events, step.session, session, project);
  }

  lemma {:induction false} StopMovesWindow(events: seq<Event>, stopped: string, session: string, project: int)
    ensures var e := Event(stopped, Stop, None);
      var was, now := events[PrevStop(events, session)..], (events + [e])[PrevStop(events + [e], session)..];
      if session == stopped then now == [] else TouchCount(now, session, project) == TouchCount(was, session, project)
  {
    if session != stopped {
      WindowGrows(events, Event(stopped, Stop, None), session, project);
    }
  }

  /** An event that closes no turn of the session joins its window. */
  lemma {:induction false} WindowGrows(events: seq<Event>, e: Event, session: string, project: int)
    requires !(e.kind == Stop && e.session == session)
    ensures var was, now := events[PrevStop(events, session)..], (events + [e])[PrevStop(events + [e], session)..];
      TouchCount(now, session, project)
      == TouchCount(was, session, project) + if e.session == session && e.project == Some(project) then 1 else 0
  {
    var was := events[PrevStop(events, session)..];
    assert (events + [e])[..|events|] == events;
    assert PrevStop(events + [e], session) == PrevStop(events, session);
    assert (events + [e])[PrevStop(events, session)..] == was + [e];
    assert (was + [e])[..|was|] == was;
  }

  /** Where no stronger lane has a column, the Stop adds the turn to it: input to input, output to output, the cost to the cost;
      the context is all the turn read, cached or not. */
  lemma {:induction false} StopAddsTheTurn(db: Db, step: Step)
    requires step.StopHook? && step.session in db.sessions
    ensures var was, now, u := db.sessions[step.session], Next(db, step).sessions[step.session], step.usage;
      && now.project == OwnProject(db, step)
      && (!HasStronger(db.claims, step.session, TokensIn, Hook) ==> now.tokensIn == was.tokensIn + u.input)
      && (!HasStronger(db.claims, step.session, TokensOut, Hook) ==> now.tokensOut == was.tokensOut + u.output)
      && (!HasStronger(db.claims, step.session, CostUsd, Hook) ==> now.cost == was.cost + CostDelta(u))
      && (!HasStronger(db.claims, step.session, ContextTokens, Hook) ==>
            now.contextTokens == u.input + u.cacheRead + u.cacheCreation)
      && (!HasStronger(db.claims, step.session, Model, Hook) && step.model.Some? ==> now.model == step.model)
  {
    HookIsPermitted();
  }

  /** The price list: three dollars a million read, thirty cents cached, fifteen written, nothing for filling the cache. */
  lemma {:induction false} PriceList(millions: nat, other: Usage)
    ensures CostDelta(other.(input := other.input + millions * 1000000)) == CostDelta(other) + 3.0 * millions as real
    ensures CostDelta(other.(cacheRead := other.cacheRead + millions * 1000000)) == CostDelta(other) + 0.30 * millions as real
    ensures CostDelta(other.(output := other.output + millions * 1000000)) == CostDelta(other) + 15.0 * millions as real
    ensures CostDelta(other.(cacheCreation := other.cacheCreation + millions * 1000000)) == CostDelta(other)
    ensures CostDelta(Usage(0, 0, 0, 0)) == 0.0
  {
  }

  lemma {:induction false} TouchedIsGrouped(window: seq<Event>, session: string, project: int)
    requires window != [] && window[|window| - 1] == Event(session, PostToolUse, Some(project))
    ensures GroupTouches(window, session) != []
  {
    GroupsArePositive(window[..|window| - 1], session);
    AddTouchFacts(GroupTouches(window[..|window| - 1], session), project);
  }

  // Whole runs.

  type Transition = (Db, Step) -> Db

  ghost function RunWith(next: Transition, steps: seq<Step>, n: nat): Db
    requires n <= |steps|
  {
    if n == 0 then EMPTY else next(RunWith(next, steps, n - 1), steps[n - 1])
  }

  ghost function Run(steps: seq<Step>, n: nat): Db
    requires n <= |steps|
  {
    RunWith(Next, steps, n)
  }

  /** What a step spends on the session that reaches nobody's row. */
  function LostBy(db: Db, step: Step, session: string): real {
    if step.StopHook? && step.session == session && !IsAttributed(TurnOf(session, step.usage), GroupsAt(db, step))
    then CostDelta(step.usage) else 0.0
  }

  /** The cost of the session's turns that had no bucket. */
  ghost function UnattributedWith(next: Transition, steps: seq<Step>, n: nat, session: string): real
    requires n <= |steps|
  {
    if n == 0 then 0.0
    else UnattributedWith(next, steps, n - 1, session) + LostBy(RunWith(next, steps, n - 1), steps[n - 1], session)
  }

  ghost function Unattributed(steps: seq<Step>, n: nat, session: string): real
    requires n <= |steps|
  {
    UnattributedWith(Next, steps, n, session)
  }

  /** No stronger lane has taken the session's cost. */
  ghost predicate HookOwnsCost(db: Db, session: string) {
    !HasStronger(db.claims, session, CostUsd, Hook)
  }

  function CostOf(db: Db, session: string): real {
    if session in db.sessions then db.sessions[session].cost else 0.0
  }

  lemma {:induction false} HookIsPermitted()
    ensures Permitted(CostUsd, Hook) && Permitted(TokensIn, Hook) && Permitted(TokensOut, Hook) && Permitted(ContextTokens, Hook) && Permitted(Model, Hook)
    ensures Permitted(CostUsd, Otlp) && Rank(CostUsd, Otlp) < Rank(CostUsd, Hook)
    ensures Permitted(TokensIn, Otlp) && Rank(TokensIn, Otlp) < Rank(TokensIn, Hook)
  {
  }

  /** Claims are never withdrawn: once a stronger lane has the field, it keeps it. */
  lemma {:induction false} DecidedOnlyAdds(claims: Claims, session: string, field: Field, lane: Lane,
          value: Option<string>, session': string, field': Field, l: Lane)
    requires HasStronger(claims, session', field', l)
    ensures HasStronger(Decided(claims, session, field, lane, value), session', field', l)
  {
  }

  lemma {:induction false} StrongerStays(db: Db, step: Step, session: string, field: Field)
    requires HasStronger(db.claims, session, field, Hook)
    ensures HasStronger(Next(db, step).claims, session, field, Hook)
  {
    match step
    case StopHook(s, _, _, model, _, texts) =>
      var c1 := Decided(db.claims, s, TokensIn, Hook, Clip(Some(texts.tokensIn)));
      var c2 := Decided(c1, s, TokensOut, Hook, Clip(Some(texts.tokensOut)));
      var c3 := Decided(c2, s, CostUsd, Hook, Clip(Some(texts.cost)));
      var c4 := Decided(c3, s, ContextTokens, Hook, Clip(Some(texts.context)));
      DecidedOnlyAdds(db.claims, s, TokensIn, Hook, Clip(Some(texts.tokensIn)), session, field, Hook);
      DecidedOnlyAdds(c1, s, TokensOut, Hook, Clip(Some(texts.tokensOut)), session, field, Hook);
      DecidedOnlyAdds(c2, s, CostUsd, Hook, Clip(Some(texts.cost)), session, field, Hook);
      DecidedOnlyAdds(c3, s, ContextTokens, Hook, Clip(Some(texts.context)), session, field, Hook);
      if model.Some? {
        DecidedOnlyAdds(c4, s, Model, Hook, Clip(model), session, field, Hook);
      }
    case VendorCost(s, _, text) => DecidedOnlyAdds(db.claims, s, CostUsd, Otlp, Clip(Some(text)), session, field, Hook);
    case VendorTokens(s, _, text) => DecidedOnlyAdds(db.claims, s, TokensIn, Otlp, Clip(Some(text)), session, field, Hook);
    case _ =>
  }

  /** What a Stop adds to the ledger, whoever owns the session's total: the whole turn, or nothing when there is no bucket. */
  lemma {:induction false} StopGrowsLedger(db: Db, step: Step, session: string)
    requires step.StopHook?
    ensures SessionCost(Next(db, step).ledger, session)
         == SessionCost(db.ledger, session)
          + if step.session == session && IsAttributed(TurnOf(session, step.usage), GroupsAt(db, step)) then CostDelta(step.usage) else 0.0
  {
    TurnGroupsArePositive(db.events, step.session, Touched(db.sessions, step.session, step.resolved)[step.session].project, step.workspace);
    AttributeConserves(db.ledger, TurnOf(step.session, step.usage), GroupsAt(db, step), session, Inbound);
  }

  /** One step: while hooks own the cost, what the total gains is what the ledger gains plus what is lost. */
  ghost predicate Conserves(db: Db, step: Step, db': Db, session: string) {
    HookOwnsCost(db', session) ==>
      && HookOwnsCost(db, session)
      && CostOf(db', session) - CostOf(db, session)
         == SessionCost(db'.ledger, session) - SessionCost(db.ledger, session) + LostBy(db, step, session)
  }

  lemma {:induction false} StepConserves(db: Db, step: Step, session: string)
    ensures Conserves(db, step, Next(db, step), session)
  {
    if HookOwnsCost(Next(db, step), session) {
      if !HookOwnsCost(db, session) {
        StrongerStays(db, step, session, CostUsd);
      }
      HookIsPermitted();
      match step
      case StopHook(_, _, _, _, _, _) => StopGrowsLedger(db, step, session);
      case VendorCost(s, _, _) => assert Applies(db.claims, s, CostUsd, Otlp) ==> Key(s, CostUsd, Otlp) in Next(db, step).claims;
      case _ =>
    }
  }

  lemma {:induction false} ConservedAlong(next: Transition, steps: seq<Step>, n: nat, session: string)
    requires forall db, step :: Conserves(db, step, next(db, step), session)
    requires n <= |steps| && HookOwnsCost(RunWith(next, steps, n), session)
    ensures CostOf(RunWith(next, steps, n), session)
         == SessionCost(RunWith(next, steps, n).ledger, session) + UnattributedWith(next, steps, n, session)
  {
    if n > 0 {
      var before, step := RunWith(next, steps, n - 1), steps[n - 1];
      assert Conserves(before, step, next(before, step), session);
      ConservedAlong(next, steps, n - 1, session);
    }
  }

  /** While hooks own the cost, the session's total is its project rows plus the turns that had no bucket. */
  lemma {:induction false} MoneyIsConserved(steps: seq<Step>, n: nat, session: string)
    requires n <= |steps| && HookOwnsCost(Run(steps, n), session)
    ensures CostOf(Run(steps, n), session) == SessionCost(Run(steps, n).ledger, session) + Unattributed(steps, n, session)
  {
    forall db, step
      ensures Conserves(db, step, Next(db, step), session)
    {
      StepConserves(db, step, session);
    }
    ConservedAlong(Next, steps, n, session);
  }

  /** Once a stronger lane has a field, no Stop moves that column, while the ledger still grows by the whole turn. */
  lemma {:induction false} StopLeavesTakenColumns(db: Db, step: Step)
    requires step.StopHook? && step.session in db.sessions
    ensures var was, now := db.sessions[step.session], Next(db, step).sessions[step.session];
      && now.status == Idle
      && (HasStronger(db.claims, step.session, CostUsd, Hook) ==> now.cost == was.cost)
      && (HasStronger(db.claims, step.session, TokensIn, Hook) ==> now.tokensIn == was.tokensIn)
      && (HasStronger(db.claims, step.session, TokensOut, Hook) ==> now.tokensOut == was.tokensOut)
      && (HasStronger(db.claims, step.session, ContextTokens, Hook) ==> now.contextTokens == was.contextTokens)
      && (HasStronger(db.claims, step.session, Model, Hook) ==> now.model == was.model)
    ensures IsAttributed(TurnOf(step.session, step.usage), GroupsAt(db, step)) ==>
              SessionCost(Next(db, step).ledger, step.session) == SessionCost(db.ledger, step.session) + CostDelta(step.usage)
  {
    StopGrowsLedger(db, step, step.session);
  }

  lemma {:induction false} StepLeavesTakenCost(db: Db, step: Step, session: string)
    requires HasStronger(db.claims, session, CostUsd, Hook)
    requires !(step.VendorCost? && step.session == session)
    ensures CostOf(Next(db, step), session) == CostOf(db, session)
  {
  }

  /** Without a new vendor total, a step keeps the stronger claim and the total it wrote. */
  ghost predicate KeepsVendor(db: Db, step: Step, db': Db, session: string) {
    HasStronger(db.claims, session, CostUsd, Hook) && !(step.VendorCost? && step.session == session) ==>
      HasStronger(db'.claims, session, CostUsd, Hook) && CostOf(db', session) == CostOf(db, session)
  }

  lemma {:induction false} KeptAlong(next: Transition, steps: seq<Step>, m: nat, n: nat, session: string)
    requires forall db, step :: KeepsVendor(db, step, next(db, step), session)
    requires m <= n <= |steps| && HasStronger(RunWith(next, steps, m).claims, session, CostUsd, Hook)
    requires forall i | m <= i < n :: !(steps[i].VendorCost? && steps[i].session == session)
    ensures HasStronger(RunWith(next, steps, n).claims, session, CostUsd, Hook)
    ensures CostOf(RunWith(next, steps, n), session) == CostOf(RunWith(next, steps, m), session)
    decreases n
  {
    if m < n {
      KeptAlong(next, steps, m, n - 1, session);
      var before, step := RunWith(next, steps, n - 1), steps[n - 1];
      assert KeepsVendor(before, step, next(before, step), session);
    }
  }

  /** After the vendor's total arrives, it stands through any further hooks. */
  lemma {:induction false} VendorCostStands(steps: seq<Step>, m: nat, n: nat, session: string)
    requires m <= n <= |steps| && HasStronger(Run(steps, m).claims, session, CostUsd, Hook)
    requires forall i | m <= i < n :: !(steps[i].VendorCost? && steps[i].session == session)
    ensures CostOf(Run(steps, n), session) == CostOf(Run(steps, m), session)
  {
    forall db, step
      ensures KeepsVendor(db, step, Next(db, step), session)
    {
      if HasStronger(db.claims, session, CostUsd, Hook) && !(step.VendorCost? && step.session == session) {
        StrongerStays(db, step, session, CostUsd);
        StepLeavesTakenCost(db, step, session);
      }
    }
    KeptAlong(Next, steps, m, n, session);
  }

  // What the other hooks and the vendor's totals do.

  /** A hook marks its session active, gives it the project it resolved only where it has none, and moves no money. */
  lemma {:induction false} HooksTouchSessions(db: Db, step: Step, session: string)
    requires step.ToolHook? || step.OtherHook?
    ensures var db' := Next(db, step);
      && db'.ledger == db.ledger && db'.claims == db.claims
      && (session != step.session ==> (session in db'.sessions <==> session in db.sessions)
                                      && (session in db.sessions ==> db'.sessions[session] == db.sessions[session]))
      && step.session in db'.sessions
      && var now := db'.sessions[step.session];
         if step.session in db.sessions then
           var was := db.sessions[step.session];
           now == was.(status := Active, project := if was.project.Some? then was.project else step.resolved)
         else now == Session(step.resolved, Active, 0, 0, 0.0, 0, None)
  {
  }

  /** An event that is no tool hook touches no project. */
  lemma {:induction false} OtherHookTouchesNothing(db: Db, step: Step, session: string, project: int)
    requires step.OtherHook?
    ensures TouchCount(Window(Next(db, step), session), session, project) == TouchCount(Window(db, session), session, project)
  {
    WindowGrows(db.events, Event(step.session, Other, None), session, project);
  }

  /** A vendor total replaces the column it is for, where the session is known, and nothing else; vendors outrank every lane. */
  lemma {:induction false} VendorTotalsReplace(db: Db, step: Step, session: string)
    requires step.VendorCost? || step.VendorTokens?
    ensures var db' := Next(db, step);
      && db'.events == db.events && db'.ledger == db.ledger && db'.sessions.Keys == db.sessions.Keys
      && (session in db.sessions ==>
            db'.sessions[session]
            == if session != step.session then db.sessions[session]
               else if step.VendorCost? then db.sessions[session].(cost := step.cost)
               else db.sessions[session].(tokensIn := step.tokensIn))
  {
    NobodyOutranksVendor(db.claims, step.session);
  }

  lemma {:induction false} NobodyOutranksVendor(claims: Claims, session: string)
    ensures Applies(claims, session, CostUsd, Otlp) && Applies(claims, session, TokensIn, Otlp)
  {
    assert Rank(CostUsd, Otlp) == 0 && Rank(TokensIn, Otlp) == 0;
  }

  /** A Stop leaves on record, for each column it was granted, the text of that column's own figure. */
  lemma {:induction false} StopClaimsItsFigures(db: Db, step: Step)
    requires step.StopHook?
    ensures var claims, s := Next(db, step).claims, step.session;
      && (!HasStronger(db.claims, s, TokensIn, Hook) ==> ClaimIs(claims, s, TokensIn, Clip(Some(step.texts.tokensIn))))
      && (!HasStronger(db.claims, s, TokensOut, Hook) ==> ClaimIs(claims, s, TokensOut, Clip(Some(step.texts.tokensOut))))
      && (!HasStronger(db.claims, s, CostUsd, Hook) ==> ClaimIs(claims, s, CostUsd, Clip(Some(step.texts.cost))))
      && (!HasStronger(db.claims, s, ContextTokens, Hook) ==> ClaimIs(claims, s, ContextTokens, Clip(Some(step.texts.context))))
      && (!HasStronger(db.claims, s, Model, Hook) && step.model.Some? ==> ClaimIs(claims, s, Model, Clip(step.model)))
  {
    HookIsPermitted();
    ClaimsAreIndependent(db.claims, step.session, step.texts);
  }

  predicate ClaimIs(claims: Claims, session: string, field: Field, value: Option<string>) {
    Key(session, field, Hook) in claims && claims[Key(session, field, Hook)] == value
  }
}
