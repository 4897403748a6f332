/** Walking an export: four nested loops over untrusted JSON, and the tally they leave. */
module OtlpParse {
  import opened Json
  import opened OtlpPoints

  const MAX_POINTS_PER_REQUEST := 10000

  /** What the walk meets, flattened: a stored instrument without a sum, a temporality Python cannot hash, a scope or resource
      with an attribute no float holds, or a data point. */
  datatype Arrival = Misshapen | Unhashable | Overflowing | Arrived(point: Point)

  const DELTA := "AGGREGATION_TEMPORALITY_DELTA"

  /** Only the delta spellings need naming: everything else, absent or unknown, is cumulative. True and 1.0 are the key 1. */
  function TemporalityOf(raw: Json): Temporality {
    if raw in {Num(Int(1)), Num(Finite(1.0)), Bool(true), Str("1"), Str(DELTA)} then Delta else Cumulative
  }

  predicate IsUnhashable(raw: Json) {
    raw.Arr? || raw.Obj?
  }

  function WireTemporality(sum: Dict): Json {
    Pick(sum, "aggregationTemporality", "aggregation_temporality")
  }

  /** The attribute list of a resource or scope block. */
  function LevelEntries(level: Json): Json {
    if level.Obj? then level.dict.Get("attributes") else Null
  }

  function LevelAttrs(rt: Runtime, level: Json): Attrs {
    AttributesOf(rt, AsList(LevelEntries(level)))
  }

  predicate LevelRaises(rt: Runtime, level: Json) {
    AttributesRaise(rt, AsList(LevelEntries(level)))
  }

  // The flat reading, level by level.

  function PointsFrom(points: seq<Json>, instrument: string, temporality: Temporality, scope: Attrs,
          resource: Attrs): seq<Arrival> {
    if points == [] then []
    else
      var rest, last := PointsFrom(points[..|points| - 1], instrument, temporality, scope, resource), points[|points| - 1];
      if last.Obj? then rest + [Arrived(Point(instrument, temporality, last.dict, scope, resource))] else rest
  }

  function FromMetric(metric: Json, scope: Attrs, resource: Attrs): seq<Arrival> {
    if !metric.Obj? then []
    else
      var name, sum := metric.dict.Get("name"), metric.dict.Get("sum");
      if !name.Str? || name.s == "" then []
      else if !sum.Obj? then (if IsStored(name.s) then [Misshapen] else [])
      else
        var wire := WireTemporality(sum.dict);
        if IsUnhashable(wire) then [Unhashable]
        else PointsFrom(AsList(Pick(sum.dict, "dataPoints", "data_points")), name.s, TemporalityOf(wire), scope, resource)
  }

  function MetricsFrom(metrics: seq<Json>, scope: Attrs, resource: Attrs): seq<Arrival> {
    if metrics == [] then []
    else MetricsFrom(metrics[..|metrics| - 1], scope, resource) + FromMetric(metrics[|metrics| - 1], scope, resource)
  }

  function FromScope(rt: Runtime, scope: Json, resource: Attrs): seq<Arrival> {
    if !scope.Obj? then []
    else if LevelRaises(rt, scope.dict.Get("scope")) then [Overflowing]
    else MetricsFrom(AsList(scope.dict.Get("metrics")), LevelAttrs(rt, scope.dict.Get("scope")), resource)
  }

  function ScopesFrom(rt: Runtime, scopes: seq<Json>, resource: Attrs): seq<Arrival> {
    if scopes == [] then []
    else ScopesFrom(rt, scopes[..|scopes| - 1], resource) + FromScope(rt, scopes[|scopes| - 1], resource)
  }

  function ScopeList(resource: Dict): seq<Json> {
    AsList(Pick(resource, "scopeMetrics", "scope_metrics"))
  }

  function FromResource(rt: Runtime, resource: Json): seq<Arrival> {
    if !resource.Obj? then []
    else if LevelRaises(rt, resource.dict.Get("resource")) then [Overflowing]
    else ScopesFrom(rt, ScopeList(resource.dict), LevelAttrs(rt, resource.dict.Get("resource")))
  }

  function ResourcesFrom(rt: Runtime, resources: seq<Json>): seq<Arrival> {
    if resources == [] then []
    else ResourcesFrom(rt, resources[..|resources| - 1]) + FromResource(rt, resources[|resources| - 1])
  }

  function ResourceList(body: Dict): seq<Json> {
    AsList(Pick(body, "resourceMetrics", "resource_metrics"))
  }

  function Arrivals(rt: Runtime, body: Dict): seq<Arrival> {
    ResourcesFrom(rt, ResourceList(body))
  }

  // The tally.

  type Tally = map<Reason, nat>

  function Count(rejected: Tally, reason: Reason): nat {
    if reason in rejected then rejected[reason] else 0
  }

  function Bump(rejected: Tally, reason: Reason): Tally {
    rejected[reason := Count(rejected, reason) + 1]
  }

  const REASONS := [NoSessionId, MalformedSessionId, UnknownSession, UnknownInstrument, DroppedInstrument, UnsupportedShape,
                    UnknownTokenType, BadValue, ValueOutOfRange, PointCap, SeriesCap]

  function SumOver(rejected: Tally, reasons: seq<Reason>): nat {
    if reasons == [] then 0 else Count(rejected, reasons[0]) + SumOver(rejected, reasons[1..])
  }

  /** `rejected_total`. */
  function Total(rejected: Tally): nat {
    SumOver(rejected, REASONS)
  }

  lemma {:induction false} BumpAddsOne(rejected: Tally, reason: Reason, reasons: seq<Reason>)
    requires forall i, j | 0 <= i < j < |reasons| :: reasons[i] != reasons[j]
    ensures SumOver(Bump(rejected, reason), reasons) == SumOver(rejected, reasons) + if reason in reasons then 1 else 0
  {
    if reasons != [] {
      BumpAddsOne(rejected, reason, reasons[1..]);
      assert reasons == [reasons[0]] + reasons[1..];
    }
  }

  lemma {:induction false} ReasonsAreAll(reason: Reason)
    ensures reason in REASONS
  {
  }

  lemma {:induction false} BumpAddsOneToTotal(rejected: Tally, reason: Reason)
    ensures Total(Bump(rejected, reason)) == Total(rejected) + 1
  {
    BumpAddsOne(rejected, reason, REASONS);
    ReasonsAreAll(reason);
  }

  /** `ParseResult`. */
  datatype Parsed = Parsed(observations: seq<Observation>, rejected: Tally, seen: nat)

  const NOTHING := Parsed([], map[], 0)

  type Judgement = Point -> Outcome<Observation>

  function Arrive(judge: Judgement, p: Parsed, a: Arrival): Parsed {
    match a
    case Unhashable => p
    case Overflowing => p
    case Misshapen => p.(rejected := Bump(p.rejected, UnsupportedShape))
    case Arrived(point) =>
      var q := p.(seen := p.seen + 1);
      if q.seen > MAX_POINTS_PER_REQUEST then q.(rejected := Bump(q.rejected, PointCap))
      else
        match judge(point)
        case Refused(reason) => q.(rejected := Bump(q.rejected, reason))
        case Raised => q
        case Ok(observation) => q.(observations := q.observations + [observation])
  }

  function ArriveAll(judge: Judgement, p: Parsed, arrivals: seq<Arrival>): Parsed {
    if arrivals == [] then p
    else Arrive(judge, ArriveAll(judge, p, arrivals[..|arrivals| - 1]), arrivals[|arrivals| - 1])
  }

  lemma {:induction false} ArriveConcat(judge: Judgement, p: Parsed, a: seq<Arrival>, b: seq<Arrival>)
    ensures ArriveAll(judge, p, a + b) == ArriveAll(judge, ArriveAll(judge, p, a), b)
    decreases |b|
  {
    if b == [] {
      assert a + b == a;
    } else {
      ArriveConcat(judge, p, a, b[..|b| - 1]);
      assert (a + b)[..|a + b| - 1] == a + b[..|b| - 1];
    }
  }

  /** This arrival raises at this point of the walk. A point past the cap is never read. */
  ghost predicate Breaks(judge: Judgement, p: Parsed, a: Arrival) {
    match a
    case Misshapen => false
    case Arrived(point) => p.seen + 1 <= MAX_POINTS_PER_REQUEST && judge(point).Raised?
    case _ => true
  }

  /** Some arrival raises where the walk meets it. */
  ghost predicate RaisesAll(judge: Judgement, p: Parsed, arrivals: seq<Arrival>) {
    && arrivals != []
    && var rest := arrivals[..|arrivals| - 1];
       RaisesAll(judge, p, rest) || Breaks(judge, ArriveAll(judge, p, rest), arrivals[|arrivals| - 1])
  }

  lemma {:induction false} RaisesConcat(judge: Judgement, p: Parsed, a: seq<Arrival>, b: seq<Arrival>)
    ensures RaisesAll(judge, p, a + b) <==> RaisesAll(judge, p, a) || RaisesAll(judge, ArriveAll(judge, p, a), b)
    decreases |b|
  {
    if b == [] {
      assert a + b == a;
    } else {
      var rest := b[..|b| - 1];
      RaisesConcat(judge, p, a, rest);
      ArriveConcat(judge, p, a, rest);
      assert (a + b)[..|a + b| - 1] == a + rest;
    }
  }

  /** A walk over these arrivals either raised, because one of them raises where it is met, or did all of them. */
  ghost predicate Did(judge: Judgement, before: Parsed, after: Parsed, raised: bool, arrivals: seq<Arrival>) {
    (raised <==> RaisesAll(judge, before, arrivals)) && (!raised ==> after == ArriveAll(judge, before, arrivals))
  }

  lemma {:induction false} DidThen(judge: Judgement, before: Parsed, mid: Parsed, after: Parsed, raised: bool,
          a: seq<Arrival>, b: seq<Arrival>)
    requires Did(judge, before, mid, false, a) && Did(judge, mid, after, raised, b)
    ensures Did(judge, before, after, raised, a + b)
  {
    ArriveConcat(judge, before, a, b);
    RaisesConcat(judge, before, a, b);
  }

  lemma {:induction false} RaisedEarly(judge: Judgement, before: Parsed, after: Parsed, a: seq<Arrival>, b: seq<Arrival>)
    requires Did(judge, before, after, true, a) && a <= b
    ensures Did(judge, before, after, true, b)
  {
    assert b == a + b[|a|..];
    RaisesConcat(judge, before, a, b[|a|..]);
  }

  lemma {:induction false} DidOne(judge: Judgement, before: Parsed, after: Parsed, a: Arrival)
    requires !Breaks(judge, before, a) ==> after == Arrive(judge, before, a)
    ensures Did(judge, before, after, Breaks(judge, before, a), [a])
  {
    assert [a][..0] == [];
    assert !RaisesAll(judge, before, []);
    assert ArriveAll(judge, before, []) == before;
  }

  /** The mutable result and the loops that fill it. Each method reports whether the walk raised. */
  class Parser {
    var observations: seq<Observation>
    var rejected: Tally
    var seen: nat
    const rt: Runtime
    const judge: Judgement

    function Now(): Parsed
      reads this
    {
      Parsed(observations, rejected, seen)
    }

    constructor (rt: Runtime, judge: Judgement)
      ensures Now() == NOTHING && this.rt == rt && this.judge == judge
    {
      observations, rejected, seen := [], map[], 0;
      this.rt, this.judge := rt, judge;
    }

    method Reject(reason: Reason)
      modifies this`rejected
      ensures rejected == Bump(old(rejected), reason)
    {
      rejected := rejected[reason := (if reason in rejected then rejected[reason] else 0) + 1];
    }

    method WalkPoint(point: Point) returns (raised: bool)
      modifies this
      ensures Did(judge, old(Now()), Now(), raised, [Arrived(point)])
    {
      ghost var before := Now();
      raised := false;
      seen := seen + 1;
      if seen > MAX_POINTS_PER_REQUEST {
        Reject(PointCap);
      } else {
        match judge(point) {
          case Refused(reason) => Reject(reason);
          case Raised => raised := true;
          case Ok(observation) => observations := observations + [observation];
        }
      }
      DidOne(judge, before, Now(), Arrived(point));
    }

    method WalkPoints(points: seq<Json>, instrument: string, temporality: Temporality, scope: Attrs,
            resource: Attrs) returns (raised: bool)
      modifies this
      ensures Did(judge, old(Now()), Now(), raised, PointsFrom(points, instrument, temporality, scope, resource))
    {
      raised := false;
      assert points[..0] == [];
      for i := 0 to |points|
        invariant !raised && Did(judge, old(Now()), Now(), false, PointsFrom(points[..i], instrument, temporality, scope, resource))
      {
        PointsStep(points, i, instrument, temporality, scope, resource);
        if points[i].Obj? {
          var point := Point(instrument, temporality, points[i].dict, scope, resource);
          ghost var mid := Now();
          raised := WalkPoint(point);
          DidThen(judge, old(Now()), mid, Now(), raised, PointsFrom(points[..i], instrument, temporality, scope, resource), [Arrived(point)]);
          if raised {
            RaisedEarly(judge, old(Now()), Now(), PointsFrom(points[..i + 1], instrument, temporality, scope, resource),
                        PointsFrom(points, instrument, temporality, scope, resource));
            return;
          }
        }
      }
      assert points[..|points|] == points;
    }

    method WalkMetric(metric: Json, scope: Attrs, resource: Attrs) returns (raised: bool)
      modifies this
      ensures Did(judge, old(Now()), Now(), raised, FromMetric(metric, scope, resource))
    {
      raised := false;
      if !metric.Obj? {
        return;
      }
      var name, sum := metric.dict.Get("name"), metric.dict.Get("sum");
      if !name.Str? || name.s == "" {
        return;
      }
      if !sum.Obj? {
        if IsStored(name.s) {
          ghost var before := Now();
          Reject(UnsupportedShape);
          DidOne(judge, before, Now(), Misshapen);
        }
        return;
      }
      var wire := WireTemporality(sum.dict);
      if IsUnhashable(wire) {
        DidOne(judge, Now(), Now(), Unhashable);
        return true;
      }
      var points := AsList(Pick(sum.dict, "dataPoints", "data_points"));
      raised := WalkPoints(points, name.s, TemporalityOf(wire), scope, resource);
    }

    method WalkMetrics(metrics: seq<Json>, scope: Attrs, resource: Attrs) returns (raised: bool)
      modifies this
      ensures Did(judge, old(Now()), Now(), raised, MetricsFrom(metrics, scope, resource))
    {
      raised := false;
      assert metrics[..0] == [];
      for i := 0 to |metrics|
        invariant !raised && Did(judge, old(Now()), Now(), false, MetricsFrom(metrics[..i], scope, resource))
      {
        ghost var mid := Now();
        raised := WalkMetric(metrics[i], scope, resource);
        DidThen(judge, old(Now()), mid, Now(), raised, MetricsFrom(metrics[..i], scope, resource), FromMetric(metrics[i], scope, resource));
        MetricsStep(metrics, i, scope, resource);
        if raised {
          RaisedEarly(judge, old(Now()), Now(), MetricsFrom(metrics[..i + 1], scope, resource), MetricsFrom(metrics, scope, resource));
          return;
        }
      }
      assert metrics[..|metrics|] == metrics;
    }

    method WalkScope(scopeMetrics: Json, resource: Attrs) returns (raised: bool)
      modifies this
      ensures Did(judge, old(Now()), Now(), raised, FromScope(rt, scopeMetrics, resource))
    {
      if !scopeMetrics.Obj? {
        return false;
      }
      var attrs;
      raised, attrs := Attributes(rt, LevelEntries(scopeMetrics.dict.Get("scope")));
      if raised {
        DidOne(judge, Now(), Now(), Overflowing);
        return;
      }
      raised := WalkMetrics(AsList(scopeMetrics.dict.Get("metrics")), attrs, resource);
    }

    method WalkScopes(scopes: seq<Json>, resource: Attrs) returns (raised: bool)
      modifies this
      ensures Did(judge, old(Now()), Now(), raised, ScopesFrom(rt, scopes, resource))
    {
      raised := false;
      assert scopes[..0] == [];
      for i := 0 to |scopes|
        invariant !raised && Did(judge, old(Now()), Now(), false, ScopesFrom(rt, scopes[..i], resource))
      {
        ghost var mid := Now();
        raised := WalkScope(scopes[i], resource);
        DidThen(judge, old(Now()), mid, Now(), raised, ScopesFrom(rt, scopes[..i], resource), FromScope(rt, scopes[i], resource));
        ScopesStep(rt, scopes, i, resource);
        if raised {
          RaisedEarly(judge, old(Now()), Now(), ScopesFrom(rt, scopes[..i + 1], resource), ScopesFrom(rt, scopes, resource));
          return;
        }
      }
      assert scopes[..|scopes|] == scopes;
    }

    method WalkResource(resourceMetrics: Json) returns (raised: bool)
      modifies this
      ensures Did(judge, old(Now()), Now(), raised, FromResource(rt, resourceMetrics))
    {
      if !resourceMetrics.Obj? {
        return false;
      }
      var attrs;
      raised, attrs := Attributes(rt, LevelEntries(resourceMetrics.dict.Get("resource")));
      if raised {
        DidOne(judge, Now(), Now(), Overflowing);
        return;
      }
      raised := WalkScopes(ScopeList(resourceMetrics.dict), attrs);
    }

    /** `parse_export`. */
    method Export(body: Dict) returns (raised: bool)
      modifies this
      ensures Did(judge, old(Now()), Now(), raised, Arrivals(rt, body))
    {
      raised := false;
      var resources := ResourceList(body);
      assert resources[..0] == [];
      for i := 0 to |resources|
        invariant !raised && Did(judge, old(Now()), Now(), false, ResourcesFrom(rt, resources[..i]))
      {
        ghost var mid := Now();
        raised := WalkResource(resources[i]);
        DidThen(judge, old(Now()), mid, Now(), raised, ResourcesFrom(rt, resources[..i]), FromResource(rt, resources[i]));
        ResourcesStep(rt, resources, i);
        if raised {
          RaisedEarly(judge, old(Now()), Now(), ResourcesFrom(rt, resources[..i + 1]), ResourcesFrom(rt, resources));
          return;
        }
      }
      assert resources[..|resources|] == resources;
    }
  }

  lemma {:induction false} PointsStep(points: seq<Json>, i: nat, instrument: string, temporality: Temporality,
          scope: Attrs, resource: Attrs)
    requires i < |points|
    ensures PointsFrom(points[..i + 1], instrument, temporality, scope, resource)
         == var so := PointsFrom(points[..i], instrument, temporality, scope, resource);
            if points[i].Obj? then so + [Arrived(Point(instrument, temporality, points[i].dict, scope, resource))] else so
    ensures PointsFrom(points[..i + 1], instrument, temporality, scope, resource)
         <= PointsFrom(points, instrument, temporality, scope, resource)
  {
    assert points[..i + 1][..i] == points[..i];
    PointsGrow(points, i + 1, instrument, temporality, scope, resource);
  }

  lemma {:induction false} PointsGrow(points: seq<Json>, i: nat, instrument: string, temporality: Temporality,
          scope: Attrs, resource: Attrs)
    requires i <= |points|
    ensures PointsFrom(points[..i], instrument, temporality, scope, resource)
         <= PointsFrom(points, instrument, temporality, scope, resource)
  {
    if i < |points| {
      PointsGrow(points[..|points| - 1], i, instrument, temporality, scope, resource);
      assert points[..|points| - 1][..i] == points[..i];
    } else {
      assert points[..i] == points;
    }
  }

  lemma {:induction false} MetricsStep(metrics: seq<Json>, i: nat, scope: Attrs, resource: Attrs)
    requires i < |metrics|
    ensures MetricsFrom(metrics[..i + 1], scope, resource) == MetricsFrom(metrics[..i], scope, resource) + FromMetric(metrics[i], scope, resource)
    ensures MetricsFrom(metrics[..i + 1], scope, resource) <= MetricsFrom(metrics, scope, resource)
  {
    assert metrics[..i + 1][..i] == metrics[..i];
    MetricsGrow(metrics, i + 1, scope, resource);
  }

  lemma {:induction false} ScopesStep(rt: Runtime, scopes: seq<Json>, i: nat, resource: Attrs)
    requires i < |scopes|
    ensures ScopesFrom(rt, scopes[..i + 1], resource) == ScopesFrom(rt, scopes[..i], resource) + FromScope(rt, scopes[i], resource)
    ensures ScopesFrom(rt, scopes[..i + 1], resource) <= ScopesFrom(rt, scopes, resource)
  {
    assert scopes[..i + 1][..i] == scopes[..i];
    ScopesGrow(rt, scopes, i + 1, resource);
  }

  lemma {:induction false} ResourcesStep(rt: Runtime, resources: seq<Json>, i: nat)
    requires i < |resources|
    ensures ResourcesFrom(rt, resources[..i + 1]) == ResourcesFrom(rt, resources[..i]) + FromResource(rt, resources[i])
    ensures ResourcesFrom(rt, resources[..i + 1]) <= ResourcesFrom(rt, resources)
  {
    assert resources[..i + 1][..i] == resources[..i];
    ResourcesGrow(rt, resources, i + 1);
  }

  lemma {:induction false} MetricsGrow(metrics: seq<Json>, i: nat, scope: Attrs, resource: Attrs)
    requires i <= |metrics|
    ensures MetricsFrom(metrics[..i], scope, resource) <= MetricsFrom(metrics, scope, resource)
  {
    if i < |metrics| {
      MetricsGrow(metrics[..|metrics| - 1], i, scope, resource);
      assert metrics[..|metrics| - 1][..i] == metrics[..i];
    } else {
      assert metrics[..i] == metrics;
    }
  }

  lemma {:induction false} ScopesGrow(rt: Runtime, scopes: seq<Json>, i: nat, resource: Attrs)
    requires i <= |scopes|
    ensures ScopesFrom(rt, scopes[..i], resource) <= ScopesFrom(rt, scopes, resource)
  {
    if i < |scopes| {
      ScopesGrow(rt, scopes[..|scopes| - 1], i, resource);
      assert scopes[..|scopes| - 1][..i] == scopes[..i];
    } else {
      assert scopes[..i] == scopes;
    }
  }

  lemma {:induction false} ResourcesGrow(rt: Runtime, resources: seq<Json>, i: nat)
    requires i <= |resources|
    ensures ResourcesFrom(rt, resources[..i]) <= ResourcesFrom(rt, resources)
  {
    if i < |resources| {
      ResourcesGrow(rt, resources[..|resources| - 1], i);
      assert resources[..|resources| - 1][..i] == resources[..i];
    } else {
      assert resources[..i] == resources;
    }
  }
}
