/** Planning the merge of a whole settings.json body. */
module SettingsMerge {
  import opened Json
  import opened HookMerge
  import opened HookMergeLaws

  datatype Refusal = NotAnObject | HooksNotAnObject | NotArrays(events: seq<string>)

  datatype Outcome =
    | Refused(reason: Refusal, plan: seq<EventPlan>)
    | Merged(body: Dict, plan: seq<EventPlan>)

  predicate DistinctEvents(ms: seq<Merger>) {
    forall i, j | 0 <= i < j < |ms| :: ms[i].event != ms[j].event
  }

  /** A missing event, like a null one, is an empty list; anything but a list is a conflict. */
  predicate IsMergeable(value: Json) {
    value.Null? || value.Arr?
  }

  function EntriesOf(value: Json): seq<Json>
    requires IsMergeable(value)
  {
    if value.Null? then [] else value.items
  }

  function MergeValue(m: Merger, block: Dict): Dict {
    var value := block.Get(m.event);
    if IsMergeable(value) then block.Set(m.event, Arr(m.MergeEvent(EntriesOf(value)))) else block
  }

  function PlanValue(m: Merger, block: Dict): EventPlan {
    var value := block.Get(m.event);
    if IsMergeable(value) then m.Plan(EntriesOf(value)) else EventPlan(m.event, Conflict, NOTHING)
  }

  function MergeBlock(ms: seq<Merger>, block: Dict): Dict {
    if ms == [] then block
    else MergeValue(ms[|ms| - 1], MergeBlock(ms[..|ms| - 1], block))
  }

  function PlanBlock(ms: seq<Merger>, block: Dict): seq<EventPlan> {
    seq(|ms|, i requires 0 <= i < |ms| => PlanValue(ms[i], block))
  }

  function ConflictsOf(ms: seq<Merger>, block: Dict): seq<string> {
    if ms == [] then []
    else
      var m := ms[|ms| - 1];
      ConflictsOf(ms[..|ms| - 1], block) + if IsMergeable(block.Get(m.event)) then [] else [m.event]
  }

  /** `_plan_settings_body`. */
  function PlanSettings(ms: seq<Merger>, parsed: Json): Outcome {
    if !parsed.Obj? then Refused(NotAnObject, [])
    else
      var hooks := parsed.dict.Get("hooks");
      if !hooks.Null? && !hooks.Obj? then Refused(HooksNotAnObject, [])
      else
        var block := if hooks.Obj? then hooks.dict else EMPTY;
        var plan := PlanBlock(ms, block);
        var conflicts := ConflictsOf(ms, block);
        if conflicts != [] then Refused(NotArrays(conflicts), plan)
        else Merged(parsed.dict.Set("hooks", Obj(MergeBlock(ms, block))), plan)
  }

  predicate ChangesFile(plan: seq<EventPlan>) {
    exists i | 0 <= i < |plan| :: plan[i].action == Add || plan[i].action == Repair
  }

  predicate AllOk(plan: seq<EventPlan>) {
    forall i | 0 <= i < |plan| :: plan[i].action == Ok
  }

  /** The hooks block of a parsed body that was not refused for its shape. */
  function BlockOf(body: Dict): Dict {
    var hooks := body.Get("hooks");
    if hooks.Obj? then hooks.dict else EMPTY
  }

  lemma {:induction false} MergeBlockGet(ms: seq<Merger>, block: Dict, key: string)
    requires DistinctEvents(ms)
    ensures (forall i | 0 <= i < |ms| :: ms[i].event != key) ==> MergeBlock(ms, block).Get(key) == block.Get(key)
    ensures forall i | 0 <= i < |ms| && ms[i].event == key && IsMergeable(block.Get(key)) ::
              MergeBlock(ms, block).Get(key) == Arr(ms[i].MergeEvent(EntriesOf(block.Get(key))))
  {
    if ms != [] {
      var front, last := ms[..|ms| - 1], ms[|ms| - 1];
      MergeBlockGet(front, block, key);
      forall i | 0 <= i < |ms| && ms[i].event == key && IsMergeable(block.Get(key))
        ensures MergeBlock(ms, block).Get(key) == Arr(ms[i].MergeEvent(EntriesOf(block.Get(key))))
      {
        if i < |front| {
          assert front[i] == ms[i] && last.event != key;
        }
      }
    }
  }

  lemma {:induction false} ConflictsMean(ms: seq<Merger>, block: Dict)
    ensures ConflictsOf(ms, block) == [] <==> forall i | 0 <= i < |ms| :: IsMergeable(block.Get(ms[i].event))
  {
    if ms != [] {
      var front := ms[..|ms| - 1];
      ConflictsMean(front, block);
      assert forall i | 0 <= i < |front| :: front[i] == ms[i];
    }
  }

  /** A body is refused exactly for its shape: nothing else, and never in part. */
  lemma {:induction false} RefusedIff(ms: seq<Merger>, parsed: Json)
    ensures PlanSettings(ms, parsed).Merged? <==>
            && parsed.Obj?
            && (parsed.dict.Get("hooks").Null? || parsed.dict.Get("hooks").Obj?)
            && forall i | 0 <= i < |ms| :: IsMergeable(BlockOf(parsed.dict).Get(ms[i].event))
  {
    if parsed.Obj? {
      ConflictsMean(ms, BlockOf(parsed.dict));
    }
  }

  /** A block every event of which is already settled merges to itself, key order included. */
  lemma {:induction false} SettledBlock(ms: seq<Merger>, block: Dict)
    requires forall i | 0 <= i < |ms| :: ms[i].event in block.entries && block.Get(ms[i].event).Arr?
                                         && ms[i].MergeEvent(block.Get(ms[i].event).items) == block.Get(ms[i].event).items
    ensures MergeBlock(ms, block) == block
  {
    if ms != [] {
      var front, last := ms[..|ms| - 1], ms[|ms| - 1];
      assert forall i | 0 <= i < |front| :: front[i] == ms[i];
      SettledBlock(front, block);
      block.SetSame(last.event);
    }
  }

  lemma {:induction false} MergedEvents(ms: seq<Merger>, body: Dict)
    requires DistinctEvents(ms)
    requires PlanSettings(ms, Obj(body)).Merged?
    ensures var after := BlockOf(PlanSettings(ms, Obj(body)).body);
      forall i | 0 <= i < |ms| ::
        && IsMergeable(BlockOf(body).Get(ms[i].event))
        && after.Get(ms[i].event) == Arr(ms[i].MergeEvent(EntriesOf(BlockOf(body).Get(ms[i].event))))
  {
    RefusedIff(ms, Obj(body));
    forall i | 0 <= i < |ms| {
      MergeBlockGet(ms, BlockOf(body), ms[i].event);
    }
  }

  /** An event whose list is a list, and whose merge is idle and reports `ok`. */
  ghost predicate Settled(m: Merger, block: Dict) {
    && m.event in block.entries && block.Get(m.event).Arr?
    && m.MergeEvent(block.Get(m.event).items) == block.Get(m.event).items
    && m.Plan(block.Get(m.event).items).action == Ok
  }

  lemma {:induction false} MergedIsSettled(ms: seq<Merger>, body: Dict, i: nat)
    requires DistinctEvents(ms) && i < |ms| && Sound(ms[i])
    requires PlanSettings(ms, Obj(body)).Merged?
    ensures Settled(ms[i], BlockOf(PlanSettings(ms, Obj(body)).body))
  {
    MergedEvents(ms, body);
    EventFixedPoint(ms[i], EntriesOf(BlockOf(body).Get(ms[i].event)));
  }

  lemma {:induction false} SettledBodyIsKept(ms: seq<Merger>, body: Dict)
    requires body.Get("hooks").Obj?
    requires forall i | 0 <= i < |ms| :: Settled(ms[i], BlockOf(body))
    ensures var again := PlanSettings(ms, Obj(body));
      again.Merged? && again.body == body && AllOk(again.plan)
  {
    SettledBlock(ms, BlockOf(body));
    RefusedIff(ms, Obj(body));
    body.SetSame("hooks");
  }

  /** One install settles the file: planning the merged body again changes nothing and reports `ok` for every event. */
  lemma {:induction false} FixedPoint(ms: seq<Merger>, body: Dict)
    requires DistinctEvents(ms) && forall i | 0 <= i < |ms| :: Sound(ms[i])
    requires PlanSettings(ms, Obj(body)).Merged?
    ensures var first := PlanSettings(ms, Obj(body));
      var again := PlanSettings(ms, Obj(first.body));
      again.Merged? && again.body == first.body && AllOk(again.plan)
  {
    forall i | 0 <= i < |ms|
      ensures Settled(ms[i], BlockOf(PlanSettings(ms, Obj(body)).body))
    {
      MergedIsSettled(ms, body, i);
    }
    SettledBodyIsKept(ms, PlanSettings(ms, Obj(body)).body);
  }

  /** Keys the installer does not own keep their values: at the top level, and under `hooks`. */
  lemma {:induction false} ForeignKeysKept(ms: seq<Merger>, body: Dict)
    requires DistinctEvents(ms)
    requires PlanSettings(ms, Obj(body)).Merged?
    ensures var after := PlanSettings(ms, Obj(body)).body;
      && (forall key | key != "hooks" :: after.Get(key) == body.Get(key))
      && body.order <= after.order
      && forall key :: (forall i | 0 <= i < |ms| :: ms[i].event != key) ==> BlockOf(after).Get(key) == BlockOf(body).Get(key)
  {
    forall key | forall i | 0 <= i < |ms| :: ms[i].event != key {
      MergeBlockGet(ms, BlockOf(body), key);
    }
  }

  /** Under each event, entries keep their places and foreign hooks keep theirs inside them. */
  lemma {:induction false} EventsPreserved(ms: seq<Merger>, body: Dict)
    requires DistinctEvents(ms)
    requires PlanSettings(ms, Obj(body)).Merged?
    ensures var after := BlockOf(PlanSettings(ms, Obj(body)).body);
      forall i | 0 <= i < |ms| ::
        var was, now := BlockOf(body).Get(ms[i].event), after.Get(ms[i].event);
        && IsMergeable(was) && now.Arr? && |EntriesOf(was)| <= |now.items|
        && (forall k | 0 <= k < |EntriesOf(was)| :: EntryPreserved(ms[i], EntriesOf(was)[k], now.items[k]))
        && now.items[|EntriesOf(was)|..] ==
           (if exists entry | entry in EntriesOf(was) :: ms[i].CoveredBy(entry) then [] else [Wrap(ms[i].desired)])
  {
    MergedEvents(ms, body);
    forall i | 0 <= i < |ms| {
      EventIsPreserved(ms[i], EntriesOf(BlockOf(body).Get(ms[i].event)));
    }
  }

  /** Whatever the hooks, a plan that changes nothing returns the very body it was given. */
  lemma {:induction false} UnchangedPlanKeepsBody(ms: seq<Merger>, body: Dict)
    requires DistinctEvents(ms) && ms != []
    requires PlanSettings(ms, Obj(body)).Merged? && !ChangesFile(PlanSettings(ms, Obj(body)).plan)
    ensures PlanSettings(ms, Obj(body)).body == body
  {
    var outcome := PlanSettings(ms, Obj(body));
    var block := BlockOf(body);
    RefusedIff(ms, Obj(body));
    forall i | 0 <= i < |ms|
      ensures ms[i].event in block.entries && block.Get(ms[i].event).Arr?
      ensures ms[i].MergeEvent(block.Get(ms[i].event).items) == block.Get(ms[i].event).items
    {
      assert outcome.plan[i] == ms[i].Plan(EntriesOf(block.Get(ms[i].event)));
      OkMeansUntouched(ms[i], EntriesOf(block.Get(ms[i].event)));
    }
    SettledBlock(ms, block);
    assert ms[0].event in block.entries;
    body.SetSame("hooks");
  }

  /** The body differs from the file exactly when the plan says the file would change. */
  lemma {:induction false} ChangesIff(ms: seq<Merger>, body: Dict)
    requires DistinctEvents(ms) && ms != [] && forall i | 0 <= i < |ms| :: Sound(ms[i])
    requires PlanSettings(ms, Obj(body)).Merged?
    ensures PlanSettings(ms, Obj(body)).body == body <==> !ChangesFile(PlanSettings(ms, Obj(body)).plan)
  {
    var outcome := PlanSettings(ms, Obj(body));
    if ChangesFile(outcome.plan) {
      var i :| 0 <= i < |outcome.plan| && (outcome.plan[i].action == Add || outcome.plan[i].action == Repair);
      MergedEvents(ms, body);
      var was := BlockOf(body).Get(ms[i].event);
      NotOkMeansChanged(ms[i], EntriesOf(was));
    } else {
      UnchangedPlanKeepsBody(ms, body);
    }
  }

  /** The body of a settings.json, merged in place. */
  class SettingsBody {
    var body: Dict

    constructor (parsed: Dict)
      ensures body == parsed
    {
      body := parsed;
    }

    method Plan(ms: seq<Merger>) returns (outcome: Outcome)
      requires DistinctEvents(ms)
      modifies this
      ensures outcome == PlanSettings(ms, Obj(old(body)))
    {
      var hooks := body.Get("hooks");
      if !hooks.Null? && !hooks.Obj? {
        return Refused(HooksNotAnObject, []);
      }
      var block := if hooks.Obj? then hooks.dict else EMPTY;
      ghost var was := block;
      var plan, conflicts: seq<string> := [], [];
      var i := 0;
      while i < |ms|
        invariant 0 <= i <= |ms|
        invariant body == old(body)
        invariant block == MergeBlock(ms[..i], was)
        invariant plan == PlanBlock(ms[..i], was)
        invariant conflicts == ConflictsOf(ms[..i], was)
      {
        var m := ms[i];
        assert ms[..i + 1][..i] == ms[..i];
        MergeBlockGet(ms[..i], was, m.event);
        var entries := block.Get(m.event);
        assert entries == was.Get(m.event);
        assert PlanBlock(ms[..i + 1], was) == PlanBlock(ms[..i], was) + [PlanValue(m, was)];
        if !entries.Null? && !entries.Arr? {
          conflicts := conflicts + [m.event];
          plan := plan + [EventPlan(m.event, Conflict, NOTHING)];
        } else {
          var list := new EventList(if entries.Null? then [] else entries.items);
          var planned := list.PlanEvent(m);
          block := block.Set(m.event, Arr(list.entries));
          plan := plan + [planned];
        }
        i := i + 1;
      }
      assert ms[..i] == ms;
      body := body.Set("hooks", Obj(block));
      outcome := if conflicts != [] then Refused(NotArrays(conflicts), plan) else Merged(body, plan);
    }
  }

  /** The conflicts a refused body is reported with are the registered events whose value is neither a list nor missing. */
  lemma {:induction false} ConflictsAre(ms: seq<Merger>, block: Dict, event: string)
    ensures event in ConflictsOf(ms, block) <==>
            exists i | 0 <= i < |ms| :: ms[i].event == event && !IsMergeable(block.Get(event))
  {
    if ms != [] {
      var front, last := ms[..|ms| - 1], ms[|ms| - 1];
      ConflictsAre(front, block, event);
      if i :| 0 <= i < |ms| && ms[i].event == event && !IsMergeable(block.Get(event)) {
        assert i < |front| ==> front[i].event == event;
      }
      if i :| 0 <= i < |front| && front[i].event == event && !IsMergeable(block.Get(event)) {
        assert ms[i].event == event;
      }
      assert last.event == event && !IsMergeable(block.Get(event)) ==> ms[|ms| - 1].event == event;
    }
  }

  /** A merged plan changes the file exactly when some event has no hook of ours under `"*"`, or a stale one. */
  lemma {:induction false} ChangesFileIff(ms: seq<Merger>, body: Dict)
    requires PlanSettings(ms, Obj(body)).Merged?
    ensures ChangesFile(PlanSettings(ms, Obj(body)).plan) <==>
            exists i | 0 <= i < |ms| :: NeedsWork(ms[i], BlockOf(body).Get(ms[i].event))
  {
    var plan, block := PlanSettings(ms, Obj(body)).plan, BlockOf(body);
    RefusedIff(ms, Obj(body));
    forall i | 0 <= i < |ms|
      ensures plan[i].action == Add || plan[i].action == Repair <==> NeedsWork(ms[i], block.Get(ms[i].event))
    {
      assert plan[i] == ms[i].Plan(EntriesOf(block.Get(ms[i].event)));
      ActionMeans(ms[i], EntriesOf(block.Get(ms[i].event)));
    }
  }

  ghost predicate NeedsWork(m: Merger, value: Json) {
    && IsMergeable(value)
    && ((forall entry | entry in EntriesOf(value) :: !m.CoveredBy(entry))
        || (exists entry | entry in EntriesOf(value) :: m.HoldsStale(entry)))
  }
}
