/** Which ingest lane may write which session field, and the record of who did. */
module LaneReconciler {
  import opened Text

  datatype Lane = Hook | Otlp | Transcript | UnknownLane(name: string)

  datatype Field =
    | TokensIn | TokensOut | CostUsd | ContextTokens | Model
    | SourceApp | SourceDetail | CliVersion | Title | TitleSource
    | GitBranch
    | PermissionMode | Effort
    | Status | LastEventAt | EndedAt | CurrentTool
    | ProjectId | Cwd | SessionKind
    | Unregistered(name: string)

  /** `FIELD_LANES`: the lanes that may write a field, strongest first. */
  function FieldLanes(field: Field): seq<Lane> {
    match field
    case TokensIn | TokensOut | CostUsd | ContextTokens | Model => [Otlp, Transcript, Hook]
    case SourceApp | SourceDetail | CliVersion | Title | TitleSource | GitBranch => [Transcript, Hook]
    case PermissionMode | Effort | Status | LastEventAt | EndedAt | CurrentTool | ProjectId | Cwd | SessionKind => [Hook, Transcript]
    case Unregistered(_) => []
  }

  const UNRANKED := 1000

  /** Position in a list of lanes, or the rank worse than every listed lane. */
  function Position(lanes: seq<Lane>, lane: Lane): nat {
    if lanes == [] then UNRANKED
    else if lanes[0] == lane then 0
    else
      var rest := Position(lanes[1..], lane);
      if rest == UNRANKED then UNRANKED else rest + 1
  }

  function Rank(field: Field, lane: Lane): nat {
    Position(FieldLanes(field), lane)
  }

  predicate Permitted(field: Field, lane: Lane) {
    Rank(field, lane) < UNRANKED
  }

  lemma {:induction false} RankFacts(field: Field, lane: Lane)
    ensures Permitted(field, lane) <==> lane in FieldLanes(field)
    ensures Permitted(field, lane) ==> !lane.UnknownLane? && Rank(field, lane) < |FieldLanes(field)| <= 3
                                       && FieldLanes(field)[Rank(field, lane)] == lane
  {
    var lanes := FieldLanes(field);
    assert |lanes| <= 3;
    PositionFacts(lanes, lane);
  }

  lemma {:induction false} PositionFacts(lanes: seq<Lane>, lane: Lane)
    requires |lanes| < UNRANKED
    ensures Position(lanes, lane) < UNRANKED <==> lane in lanes
    ensures lane in lanes ==> Position(lanes, lane) < |lanes| && lanes[Position(lanes, lane)] == lane
    ensures lane !in lanes ==> Position(lanes, lane) == UNRANKED
  {
    if lanes != [] {
      PositionFacts(lanes[1..], lane);
    }
  }

  /** Permitted lanes are told apart by rank. */
  lemma {:induction false} RankIsInjective(field: Field, a: Lane, b: Lane)
    requires Permitted(field, a) && Rank(field, a) == Rank(field, b)
    ensures a == b
  {
    RankFacts(field, a);
    RankFacts(field, b);
  }

  /** One row of `session_field_provenance` per session, field and lane. */
  datatype Key = Key(session: string, field: Field, lane: Lane)
  type Claims = map<Key, Option<string>>

  datatype Reason = UnknownLaneName | UnregisteredField | LaneNotPermitted | Outranked(winner: Lane) | Claimed

  /** The strongest lane that holds a claim on the field. */
  ghost predicate IsWinner(claims: Claims, session: string, field: Field, winner: Option<Lane>) {
    match winner
    case None => forall lane :: Key(session, field, lane) !in claims
    case Some(w) => Key(session, field, w) in claims && forall lane :: Key(session, field, lane) in claims ==> Rank(field, w) <= Rank(field, lane)
  }

  /** A claim on this field by a strictly stronger lane. */
  ghost predicate HasStronger(claims: Claims, session: string, field: Field, lane: Lane) {
    exists other :: Key(session, field, other) in claims && Rank(field, other) < Rank(field, lane)
  }

  ghost predicate Applies(claims: Claims, session: string, field: Field, lane: Lane) {
    Permitted(field, lane) && !HasStronger(claims, session, field, lane)
  }

  /** The claims table after a lane asked for a field. */
  ghost function Decided(claims: Claims, session: string, field: Field, lane: Lane, value: Option<string>): Claims {
    if Applies(claims, session, field, lane) then claims[Key(session, field, lane) := value] else claims
  }

  /** The strongest claim alone tells whether anyone stronger claims. */
  lemma {:induction false} WinnerDecides(claims: Claims, session: string, field: Field, lane: Lane, winner: Option<Lane>)
    requires IsWinner(claims, session, field, winner)
    ensures HasStronger(claims, session, field, lane) <==> winner.Some? && Rank(field, winner.value) < Rank(field, lane)
  {
  }

  function Clip(value: Option<string>): Option<string> {
    match value
    case None => None
    case Some(s) => Some(if |s| <= 2048 then s else s[..2048])
  }

  class Provenance {
    var claims: Claims

    constructor ()
      ensures claims == map[]
    {
      claims := map[];
    }

    /** `_winning_claim`: the minimum by rank over the claims on record. */
    method WinningClaim(session: string, field: Field) returns (winner: Option<Lane>)
      ensures IsWinner(claims, session, field, winner)
    {
      winner := None;
      var rows := set key | key in claims && key.session == session && key.field == field;
      ghost var seen := {};
      while rows != {}
        invariant seen + rows == set key | key in claims && key.session == session && key.field == field
        invariant winner.None? ==> seen == {}
        invariant winner.Some? ==> Key(session, field, winner.value) in seen
                                   && forall key | key in seen :: Rank(field, winner.value) <= Rank(field, key.lane)
        decreases rows
      {
        var key :| key in rows;
        if winner.None? || Rank(field, key.lane) < Rank(field, winner.value) {
          winner := Some(key.lane);
        }
        seen := seen + {key};
        rows := rows - {key};
      }
      assert forall lane :: Key(session, field, lane) in claims <==> Key(session, field, lane) in seen;
    }

    /** `_decide`, behind both `apply` and `accumulate`. */
    method Decide(session: string, lane: Lane, field: Field, value: Option<string>) returns (applied: bool, reason: Reason)
      modifies this
      ensures claims == Decided(old(claims), session, field, lane, Clip(value))
      ensures applied <==> Applies(old(claims), session, field, lane)
      ensures applied <==> reason == Claimed
      ensures reason.Outranked? ==> Key(session, field, reason.winner) in old(claims) && Rank(field, reason.winner) < Rank(field, lane)
    {
      reason := Verdict(session, lane, field);
      applied := reason == Claimed;
      if applied {
        claims := claims[Key(session, field, lane) := Clip(value)];
      }
    }

    method Verdict(session: string, lane: Lane, field: Field) returns (reason: Reason)
      ensures reason == Claimed <==> Applies(claims, session, field, lane)
      ensures reason.Outranked? ==> Key(session, field, reason.winner) in claims && Rank(field, reason.winner) < Rank(field, lane)
    {
      RankFacts(field, lane);
      if lane.UnknownLane? {
        return UnknownLaneName;
      }
      if field.Unregistered? {
        return UnregisteredField;
      }
      if Rank(field, lane) >= UNRANKED {
        return LaneNotPermitted;
      }
      var winner := WinningClaim(session, field);
      WinnerDecides(claims, session, field, lane, winner);
      if winner.Some? && Rank(field, winner.value) < Rank(field, lane) {
        return Outranked(winner.value);
      }
      return Claimed;
    }
  }

  /** What `read` reports of one field. */
  datatype Report = Report(lane: Lane, value: Option<string>)

  ghost predicate ReportsWinner(claims: Claims, session: string, field: Field, report: Report) {
    IsWinner(claims, session, field, Some(report.lane)) && claims[Key(session, field, report.lane)] == report.value
  }

  /** The claims of a session, or those on one field of it. */
  ghost predicate Asked(key: Key, session: string, only: Option<Field>) {
    key.session == session && (only.None? || key.field == only.value)
  }

  /** `read`: every field asked about that anyone claims, with its strongest lane; asking about an unregistered one raises. */
  method Read(table: Provenance, session: string, only: Option<Field>) returns (raised: bool, best: map<Field, Report>)
    ensures raised <==> only.Some? && only.value.Unregistered?
    ensures !raised ==> forall field ::
              field in best <==> exists lane :: Key(session, field, lane) in table.claims && Asked(Key(session, field, lane), session, only)
    ensures forall field | field in best :: ReportsWinner(table.claims, session, field, best[field])
  {
    raised, best := only.Some? && only.value.Unregistered?, map[];
    if raised {
      return;
    }
    var rows := set key | key in table.claims && key.session == session && (only.None? || key.field == only.value);
    ghost var all := rows;
    ghost var seen: set<Key> := {};
    while rows != {}
      invariant seen + rows == all
      invariant forall key | key in seen :: key.field in best && Rank(key.field, best[key.field].lane) <= Rank(key.field, key.lane)
      invariant forall field | field in best ::
                  Key(session, field, best[field].lane) in seen && table.claims[Key(session, field, best[field].lane)] == best[field].value
      decreases rows
    {
      var key :| key in rows;
      if key.field !in best || Rank(key.field, key.lane) < Rank(key.field, best[key.field].lane) {
        best := best[key.field := Report(key.lane, table.claims[key])];
      }
      seen := seen + {key};
      rows := rows - {key};
    }
    assert forall key :: key in seen <==> key in table.claims && Asked(key, session, only);
    forall field, lane | field in best && Key(session, field, lane) in table.claims
      ensures Rank(field, best[field].lane) <= Rank(field, lane)
    {
      assert Asked(Key(session, field, best[field].lane), session, only);
      assert Key(session, field, lane) in seen;
    }
  }

  // Any sequence of claims, over any sessions and fields.

  datatype Call = Call(session: string, lane: Lane, field: Field, value: Option<string>)

  /** The claims after the first `n` calls, from an empty table. */
  ghost function After(calls: seq<Call>, n: nat): Claims
    requires n <= |calls|
  {
    if n == 0 then map[]
    else
      var c := calls[n - 1];
      Decided(After(calls, n - 1), c.session, c.field, c.lane, Clip(c.value))
  }

  /** A permitted lane called for this field among the first `n` calls. */
  ghost predicate Called(calls: seq<Call>, n: nat, session: string, field: Field, lane: Lane)
    requires n <= |calls|
  {
    Permitted(field, lane) && exists k | 0 <= k < n :: calls[k].session == session && calls[k].field == field && calls[k].lane == lane
  }

  ghost predicate StrongerCalled(calls: seq<Call>, n: nat, session: string, field: Field, lane: Lane)
    requires n <= |calls|
  {
    exists other :: Called(calls, n, session, field, other) && Rank(field, other) < Rank(field, lane)
  }

  ghost predicate IsStrongestCaller(calls: seq<Call>, n: nat, session: string, field: Field, lane: Lane)
    requires n <= |calls|
  {
    Called(calls, n, session, field, lane) && !StrongerCalled(calls, n, session, field, lane)
  }

  lemma {:induction false} CalledStep(calls: seq<Call>, n: nat, session: string, field: Field, lane: Lane)
    requires 0 < n <= |calls|
    ensures Called(calls, n, session, field, lane) <==>
            Called(calls, n - 1, session, field, lane)
            || (Permitted(field, lane) && calls[n - 1].session == session && calls[n - 1].field == field && calls[n - 1].lane == lane)
  {
  }

  lemma {:induction false} RecordedLanesCalled(calls: seq<Call>, n: nat, session: string, field: Field, lane: Lane)
    requires n <= |calls| && Key(session, field, lane) in After(calls, n)
    ensures Called(calls, n, session, field, lane)
  {
    if n > 0 {
      var before, c := After(calls, n - 1), calls[n - 1];
      CalledStep(calls, n, session, field, lane);
      if Key(session, field, lane) in before {
        RecordedLanesCalled(calls, n - 1, session, field, lane);
      } else {
        assert Key(session, field, lane) == Key(c.session, c.field, c.lane);
      }
    }
  }

  /** With one call fewer, a caller that was strongest still is. */
  lemma {:induction false} StrongestBefore(calls: seq<Call>, n: nat, session: string, field: Field, lane: Lane)
    requires 0 < n <= |calls| && !StrongerCalled(calls, n, session, field, lane)
    ensures !StrongerCalled(calls, n - 1, session, field, lane)
  {
  }

  /** The strongest lane that ever called is on record, though outranked calls left no trace. */
  lemma {:induction false} RecordHoldsTheStrongest(calls: seq<Call>, n: nat, session: string, field: Field, lane: Lane)
    requires n <= |calls| && IsStrongestCaller(calls, n, session, field, lane)
    ensures Key(session, field, lane) in After(calls, n)
  {
    if n > 0 {
      var before := After(calls, n - 1);
      CalledStep(calls, n, session, field, lane);
      StrongestBefore(calls, n, session, field, lane);
      if Called(calls, n - 1, session, field, lane) {
        RecordHoldsTheStrongest(calls, n - 1, session, field, lane);
      } else {
        forall other | Key(session, field, other) in before
          ensures Rank(field, other) >= Rank(field, lane)
        {
          RecordedLanesCalled(calls, n - 1, session, field, other);
        }
        assert Applies(before, session, field, lane);
      }
    }
  }

  /** Among callers there is a strongest. */
  lemma {:induction false} StrongestExists(calls: seq<Call>, n: nat, session: string, field: Field,
          lane: Lane) returns (strongest: Lane)
    requires n <= |calls| && Called(calls, n, session, field, lane)
    ensures IsStrongestCaller(calls, n, session, field, strongest) && Rank(field, strongest) <= Rank(field, lane)
    decreases Rank(field, lane)
  {
    if StrongerCalled(calls, n, session, field, lane) {
      var other :| Called(calls, n, session, field, other) && Rank(field, other) < Rank(field, lane);
      strongest := StrongestExists(calls, n, session, field, other);
    } else {
      strongest := lane;
    }
  }

  /** A call is granted exactly when its lane is permitted and no strictly stronger lane has called for the field before. */
  lemma {:induction false} AppliedIffNoStrongerCalled(calls: seq<Call>, k: nat)
    requires k < |calls|
    ensures var c := calls[k];
      Applies(After(calls, k), c.session, c.field, c.lane) <==>
      Permitted(c.field, c.lane) && !StrongerCalled(calls, k, c.session, c.field, c.lane)
  {
    var c, claims := calls[k], After(calls, k);
    if HasStronger(claims, c.session, c.field, c.lane) {
      var other :| Key(c.session, c.field, other) in claims && Rank(c.field, other) < Rank(c.field, c.lane);
      RecordedLanesCalled(calls, k, c.session, c.field, other);
    }
    if StrongerCalled(calls, k, c.session, c.field, c.lane) {
      var other :| Called(calls, k, c.session, c.field, other) && Rank(c.field, other) < Rank(c.field, c.lane);
      var strongest := StrongestExists(calls, k, c.session, c.field, other);
      RecordHoldsTheStrongest(calls, k, c.session, c.field, strongest);
    }
  }

  /** `read` names the winner: the strongest permitted lane that ever called. */
  lemma {:induction false} WinnerIsStrongestCaller(calls: seq<Call>, n: nat, session: string, field: Field, winner: Option<Lane>)
    requires n <= |calls| && IsWinner(After(calls, n), session, field, winner)
    ensures winner.Some? ==> IsStrongestCaller(calls, n, session, field, winner.value)
    ensures winner.None? ==> forall lane :: !Called(calls, n, session, field, lane)
  {
    if winner.Some? {
      RecordedLanesCalled(calls, n, session, field, winner.value);
      var strongest := StrongestExists(calls, n, session, field, winner.value);
      RecordHoldsTheStrongest(calls, n, session, field, strongest);
      RankIsInjective(field, strongest, winner.value);
    } else {
      forall lane
        ensures !Called(calls, n, session, field, lane)
      {
        if Called(calls, n, session, field, lane) {
          var strongest := StrongestExists(calls, n, session, field, lane);
          RecordHoldsTheStrongest(calls, n, session, field, strongest);
        }
      }
    }
  }

  /** The same callers, in any order and however often, leave the same winner. */
  lemma {:induction false} WinnerIgnoresOrder(calls: seq<Call>, calls': seq<Call>, session: string, field: Field,
          winner: Option<Lane>, winner': Option<Lane>)
    requires forall lane :: Called(calls, |calls|, session, field, lane) <==> Called(calls', |calls'|, session, field, lane)
    requires IsWinner(After(calls, |calls|), session, field, winner) && IsWinner(After(calls', |calls'|), session, field, winner')
    ensures winner == winner'
  {
    WinnerIsStrongestCaller(calls, |calls|, session, field, winner);
    WinnerIsStrongestCaller(calls', |calls'|, session, field, winner');
    if winner.Some? && winner'.Some? {
      assert Called(calls', |calls'|, session, field, winner.value) && Called(calls, |calls|, session, field, winner'.value);
      RankIsInjective(field, winner.value, winner'.value);
    }
  }

  // A column that is only written when the claim is granted.

  /** The column after the first `n` calls: the last granted value. */
  ghost function Column(calls: seq<Call>, n: nat, session: string, field: Field, start: Option<string>): Option<string>
    requires n <= |calls|
  {
    if n == 0 then start
    else
      var c, before := calls[n - 1], Column(calls, n - 1, session, field, start);
      if c.session == session && c.field == field && Applies(After(calls, n - 1), session, field, c.lane) then c.value else before
  }

  /** The last value a lane offered for the field. */
  ghost function LastOffer(calls: seq<Call>, n: nat, session: string, field: Field, lane: Lane): Option<string>
    requires n <= |calls| && Called(calls, n, session, field, lane)
  {
    CalledStep(calls, n, session, field, lane);
    var c := calls[n - 1];
    if c.session == session && c.field == field && c.lane == lane then c.value else LastOffer(calls, n - 1, session, field, lane)
  }

  /** Whatever came between, the column holds the winner's own last word. */
  lemma {:induction false} ColumnHoldsWinnersLastWrite(calls: seq<Call>, n: nat, session: string, field: Field,
          lane: Lane, start: Option<string>)
    requires n <= |calls| && IsStrongestCaller(calls, n, session, field, lane)
    ensures Column(calls, n, session, field, start) == LastOffer(calls, n, session, field, lane)
  {
    var c := calls[n - 1];
    CalledStep(calls, n, session, field, lane);
    AppliedIffNoStrongerCalled(calls, n - 1);
    forall other
      ensures Called(calls, n - 1, session, field, other) ==> Called(calls, n, session, field, other)
    {
      CalledStep(calls, n, session, field, other);
    }
    if c.session == session && c.field == field && c.lane == lane {
      assert !StrongerCalled(calls, n - 1, session, field, lane);
    } else {
      assert IsStrongestCaller(calls, n - 1, session, field, lane);
      ColumnHoldsWinnersLastWrite(calls, n - 1, session, field, lane, start);
      if c.session == session && c.field == field && Permitted(field, c.lane) {
        assert Called(calls, n, session, field, c.lane);
        if Rank(field, lane) == Rank(field, c.lane) {
          RankIsInjective(field, lane, c.lane);
        }
        assert StrongerCalled(calls, n - 1, session, field, c.lane);
      }
    }
  }

  // What the ranking is for.

  /** Money and tokens believe the vendor first, then the transcript, then the hooks. */
  lemma {:induction false} MoneyBelievesVendor(field: Field)
    requires field in {TokensIn, TokensOut, CostUsd, ContextTokens, Model}
    ensures Rank(field, Otlp) < Rank(field, Transcript) < Rank(field, Hook) < UNRANKED
  {
  }

  /** What only the transcript knows it may take from a hook; the vendor has no say in it. */
  lemma {:induction false} TranscriptKnowsOrigin(field: Field)
    requires field in {SourceApp, SourceDetail, CliVersion, Title, TitleSource, GitBranch}
    ensures Rank(field, Transcript) < Rank(field, Hook) < UNRANKED && !Permitted(field, Otlp)
  {
  }

  /** What happens live a hook sees first; a transcript read later cannot take it back. */
  lemma {:induction false} HooksSeeLive(field: Field)
    requires field in {PermissionMode, Effort, Status, LastEventAt, EndedAt, CurrentTool, ProjectId, Cwd, SessionKind}
    ensures Rank(field, Hook) < Rank(field, Transcript) < UNRANKED && !Permitted(field, Otlp)
  {
  }

  /** A value is kept whole up to 2048 characters, and cut there. */
  lemma {:induction false} ClipKeeps(s: string)
    ensures Clip(None) == None && Clip(Some(s)).Some? && Clip(Some(s)).value <= s
    ensures |Clip(Some(s)).value| == if |s| < 2048 then |s| else 2048
  {
  }
}
