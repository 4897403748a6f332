/** What the walk's tally means: every data point is judged exactly once, and the books close. */
module OtlpAccounting {
  import opened Json
  import opened OtlpPoints
  import opened OtlpParse

  /** A judgement never spends a reason that belongs to another stage. */
  ghost predicate Regular(judge: Judgement) {
    forall p :: judge(p).Refused? ==> judge(p).reason !in {UnknownSession, UnsupportedShape, PointCap, SeriesCap}
  }

  function JudgeWith(rt: Runtime): Judgement {
    p => Judge(rt, p)
  }

  lemma {:induction false} JudgeIsRegular(rt: Runtime)
    ensures Regular(JudgeWith(rt))
  {
  }

  /** The data points of an export, in order. */
  function PointsOf(arrivals: seq<Arrival>): seq<Point> {
    if arrivals == [] then []
    else
      var rest, last := PointsOf(arrivals[..|arrivals| - 1]), arrivals[|arrivals| - 1];
      if last.Arrived? then rest + [last.point] else rest
  }

  function MisshapenIn(arrivals: seq<Arrival>): nat {
    if arrivals == [] then 0
    else MisshapenIn(arrivals[..|arrivals| - 1]) + if arrivals[|arrivals| - 1].Misshapen? then 1 else 0
  }

  /** What the judgement makes of these points, in order. */
  function AcceptedOf(judge: Judgement, points: seq<Point>): seq<Observation> {
    if points == [] then []
    else
      var rest, last := AcceptedOf(judge, points[..|points| - 1]), judge(points[|points| - 1]);
      if last.Ok? then rest + [last.value] else rest
  }

  function RefusedFor(judge: Judgement, points: seq<Point>, reason: Reason): nat {
    if points == [] then 0
    else RefusedFor(judge, points[..|points| - 1], reason) + if judge(points[|points| - 1]) == Refused(reason) then 1 else 0
  }

  /** The points of a request that are looked at: the first ten thousand. */
  function Considered(points: seq<Point>): seq<Point> {
    if |points| > MAX_POINTS_PER_REQUEST then points[..MAX_POINTS_PER_REQUEST] else points
  }

  /** Independently of the walk: what the result must hold, count by count. */
  ghost predicate Books(judge: Judgement, p: Parsed, arrivals: seq<Arrival>) {
    var points := PointsOf(arrivals);
    && p.seen == |points|
    && p.observations == AcceptedOf(judge, Considered(points))
    && (forall reason :: Count(p.rejected, reason) == Refusals(judge, arrivals, reason))
  }

  function Refusals(judge: Judgement, arrivals: seq<Arrival>, reason: Reason): nat {
    var points := PointsOf(arrivals);
    match reason
    case UnsupportedShape => MisshapenIn(arrivals)
    case PointCap => |points| - |Considered(points)|
    case _ => RefusedFor(judge, Considered(points), reason)
  }

  lemma {:induction false} BooksAreExact(judge: Judgement, arrivals: seq<Arrival>)
    requires Regular(judge) && !RaisesAll(judge, NOTHING, arrivals)
    ensures Books(judge, ArriveAll(judge, NOTHING, arrivals), arrivals)
  {
    if arrivals == [] {
      assert forall reason :: Refusals(judge, arrivals, reason) == 0;
    } else {
      var rest, last := arrivals[..|arrivals| - 1], arrivals[|arrivals| - 1];
      BooksAreExact(judge, rest);
      BooksStep(judge, ArriveAll(judge, NOTHING, rest), rest, last, arrivals);
    }
  }

  lemma {:induction false} BooksStep(judge: Judgement, p: Parsed, rest: seq<Arrival>, last: Arrival, arrivals: seq<Arrival>)
    requires Regular(judge) && Books(judge, p, rest) && !Breaks(judge, p, last)
    requires arrivals != [] && arrivals[..|arrivals| - 1] == rest && arrivals[|arrivals| - 1] == last
    ensures Books(judge, Arrive(judge, p, last), arrivals)
  {
    var q := Arrive(judge, p, last);
    if last.Arrived? {
      var points, points' := PointsOf(rest), PointsOf(arrivals);
      assert points' == points + [last.point];
      if |points'| > MAX_POINTS_PER_REQUEST {
        assert Considered(points') == Considered(points);
      } else {
        assert Considered(points')[..|points|] == Considered(points);
      }
    }
    forall reason
      ensures Count(q.rejected, reason) == Refusals(judge, arrivals, reason)
    {
      assert Count(p.rejected, reason) == Refusals(judge, rest, reason);
    }
  }

  /** Stored plus refused is seen plus the refusals that have no point: the misshapen instruments. */
  ghost predicate Closes(p: Parsed) {
    |p.observations| + Total(p.rejected) == p.seen + Count(p.rejected, UnsupportedShape)
  }

  lemma {:induction false} AccountingCloses(judge: Judgement, arrivals: seq<Arrival>)
    requires Regular(judge) && !RaisesAll(judge, NOTHING, arrivals)
    ensures Closes(ArriveAll(judge, NOTHING, arrivals))
  {
    if arrivals == [] {
      NothingRefused(REASONS);
    } else {
      var rest, last := arrivals[..|arrivals| - 1], arrivals[|arrivals| - 1];
      AccountingCloses(judge, rest);
      var p := ArriveAll(judge, NOTHING, rest);
      ArrivalCloses(judge, p, last);
    }
  }

  lemma {:induction false} ArrivalCloses(judge: Judgement, p: Parsed, a: Arrival)
    requires Regular(judge) && Closes(p) && !Breaks(judge, p, a)
    ensures Closes(Arrive(judge, p, a))
  {
    match a
    case Misshapen => BumpAddsOneToTotal(p.rejected, UnsupportedShape);
    case Arrived(point) =>
      if p.seen + 1 > MAX_POINTS_PER_REQUEST {
        BumpAddsOneToTotal(p.rejected, PointCap);
      } else if judge(point).Refused? {
        BumpAddsOneToTotal(p.rejected, judge(point).reason);
      }
    case _ =>
  }

  lemma {:induction false} NothingRefused(reasons: seq<Reason>)
    ensures SumOver(map[], reasons) == 0
  {
    if reasons != [] {
      NothingRefused(reasons[1..]);
    }
  }

  // What raises. First on the arrivals: a stop is an arrival that raises wherever it is met.

  predicate Stops(a: Arrival) {
    a == Unhashable || a == Overflowing
  }

  ghost predicate HasStop(arrivals: seq<Arrival>) {
    exists a | a in arrivals :: Stops(a)
  }

  ghost predicate AnyRaises(judge: Judgement, points: seq<Point>) {
    exists p | p in points :: judge(p).Raised?
  }

  lemma {:induction false} SeenSoFar(judge: Judgement, arrivals: seq<Arrival>)
    ensures ArriveAll(judge, NOTHING, arrivals).seen == |PointsOf(arrivals)|
  {
    if arrivals != [] {
      SeenSoFar(judge, arrivals[..|arrivals| - 1]);
    }
  }

  /** The walk raises exactly when there is a stop or a point within the cap that raises: in what order they stand is no matter. */
  lemma {:induction false} ArrivalsRaiseIff(judge: Judgement, arrivals: seq<Arrival>)
    ensures RaisesAll(judge, NOTHING, arrivals) <==> HasStop(arrivals) || AnyRaises(judge, Considered(PointsOf(arrivals)))
  {
    if arrivals != [] {
      var rest, last := arrivals[..|arrivals| - 1], arrivals[|arrivals| - 1];
      ArrivalsRaiseIff(judge, rest);
      SeenSoFar(judge, rest);
      assert arrivals == rest + [last];
      assert HasStop(arrivals) <==> HasStop(rest) || Stops(last);
      ConsideredGrows(judge, rest, last, arrivals);
    }
  }

  lemma {:induction false} ConsideredGrows(judge: Judgement, rest: seq<Arrival>, last: Arrival, arrivals: seq<Arrival>)
    requires arrivals == rest + [last]
    ensures AnyRaises(judge, Considered(PointsOf(arrivals))) <==>
            || AnyRaises(judge, Considered(PointsOf(rest)))
            || (last.Arrived? && |PointsOf(rest)| < MAX_POINTS_PER_REQUEST && judge(last.point).Raised?)
  {
    assert arrivals[..|arrivals| - 1] == rest;
    var points := PointsOf(rest);
    if last.Arrived? && |points| < MAX_POINTS_PER_REQUEST {
      assert Considered(PointsOf(arrivals)) == points + [last.point];
    } else {
      assert Considered(PointsOf(arrivals)) == Considered(points);
    }
  }

  // Then on the body.

  /** A metric whose temporality Python cannot look up. */
  ghost predicate Crashes(metric: Json) {
    metric.Obj? && metric.dict.Get("name").Str? && metric.dict.Get("name").s != ""
    && metric.dict.Get("sum").Obj? && IsUnhashable(WireTemporality(metric.dict.Get("sum").dict))
  }

  ghost predicate ScopeStops(rt: Runtime, s: Json) {
    s.Obj? && (LevelRaises(rt, s.dict.Get("scope")) || exists m | m in AsList(s.dict.Get("metrics")) :: Crashes(m))
  }

  ghost predicate ResourceStops(rt: Runtime, r: Json) {
    r.Obj? && (LevelRaises(rt, r.dict.Get("resource")) || exists s | s in ScopeList(r.dict) :: ScopeStops(rt, s))
  }

  ghost predicate BodyStops(rt: Runtime, body: Dict) {
    exists r | r in ResourceList(body) :: ResourceStops(rt, r)
  }

  /** The walk raises exactly when some resource or scope carries an attribute no float holds, some metric's temporality is a list
      or an object, or one of the first ten thousand points raises; `JudgeRaisesIff` says which points do. */
  lemma {:induction false} RaisesIff(rt: Runtime, body: Dict)
    ensures RaisesAll(JudgeWith(rt), NOTHING, Arrivals(rt, body)) <==>
            || BodyStops(rt, body)
            || exists p | p in Considered(PointsOf(Arrivals(rt, body))) :: Judge(rt, p).Raised?
  {
    var judge, points := JudgeWith(rt), Considered(PointsOf(Arrivals(rt, body)));
    ArrivalsRaiseIff(judge, Arrivals(rt, body));
    ResourcesStopIff(rt, ResourceList(body));
    assert forall p | p in points :: judge(p) == Judge(rt, p);
  }

  lemma {:induction false} HasStopConcat(a: seq<Arrival>, b: seq<Arrival>)
    ensures HasStop(a + b) <==> HasStop(a) || HasStop(b)
  {
    if x :| x in a && Stops(x) {
      assert x in a + b;
    } else if x :| x in b && Stops(x) {
      assert x in a + b;
    }
  }

  lemma {:induction false} ResourcesStopIff(rt: Runtime, resources: seq<Json>)
    ensures HasStop(ResourcesFrom(rt, resources)) <==> exists r | r in resources :: ResourceStops(rt, r)
  {
    if resources != [] {
      var rest, last := resources[..|resources| - 1], resources[|resources| - 1];
      ResourcesStopIff(rt, rest);
      HasStopConcat(ResourcesFrom(rt, rest), FromResource(rt, last));
      ResourceStopsIff(rt, last);
      assert resources == rest + [last];
    }
  }

  lemma {:induction false} ResourceStopsIff(rt: Runtime, r: Json)
    ensures HasStop(FromResource(rt, r)) <==> ResourceStops(rt, r)
  {
    if r.Obj? {
      if LevelRaises(rt, r.dict.Get("resource")) {
        assert Overflowing in FromResource(rt, r);
      } else {
        ScopesStopIff(rt, ScopeList(r.dict), LevelAttrs(rt, r.dict.Get("resource")));
      }
    }
  }

  lemma {:induction false} ScopesStopIff(rt: Runtime, scopes: seq<Json>, resource: Attrs)
    ensures HasStop(ScopesFrom(rt, scopes, resource)) <==> exists s | s in scopes :: ScopeStops(rt, s)
  {
    if scopes != [] {
      var rest, last := scopes[..|scopes| - 1], scopes[|scopes| - 1];
      ScopesStopIff(rt, rest, resource);
      HasStopConcat(ScopesFrom(rt, rest, resource), FromScope(rt, last, resource));
      ScopeStopsIff(rt, last, resource);
      assert scopes == rest + [last];
    }
  }

  lemma {:induction false} ScopeStopsIff(rt: Runtime, s: Json, resource: Attrs)
    ensures HasStop(FromScope(rt, s, resource)) <==> ScopeStops(rt, s)
  {
    if s.Obj? {
      if LevelRaises(rt, s.dict.Get("scope")) {
        assert Overflowing in FromScope(rt, s, resource);
      } else {
        MetricsStopIff(AsList(s.dict.Get("metrics")), LevelAttrs(rt, s.dict.Get("scope")), resource);
      }
    }
  }

  lemma {:induction false} MetricsStopIff(metrics: seq<Json>, scope: Attrs, resource: Attrs)
    ensures HasStop(MetricsFrom(metrics, scope, resource)) <==> exists m | m in metrics :: Crashes(m)
  {
    if metrics != [] {
      var rest, last := metrics[..|metrics| - 1], metrics[|metrics| - 1];
      MetricsStopIff(rest, scope, resource);
      HasStopConcat(MetricsFrom(rest, scope, resource), FromMetric(last, scope, resource));
      MetricStopsIff(last, scope, resource);
      assert metrics == rest + [last];
    }
  }

  lemma {:induction false} MetricStopsIff(metric: Json, scope: Attrs, resource: Attrs)
    ensures HasStop(FromMetric(metric, scope, resource)) <==> Crashes(metric)
  {
    if Crashes(metric) {
      assert Unhashable in FromMetric(metric, scope, resource);
    } else if metric.Obj? && metric.dict.Get("name").Str? && metric.dict.Get("sum").Obj? {
      var name, sum := metric.dict.Get("name").s, metric.dict.Get("sum").dict;
      PointsNeverStop(AsList(Pick(sum, "dataPoints", "data_points")), name, TemporalityOf(WireTemporality(sum)), scope, resource);
    }
  }

  lemma {:induction false} PointsNeverStop(points: seq<Json>, instrument: string, temporality: Temporality,
          scope: Attrs, resource: Attrs)
    ensures !HasStop(PointsFrom(points, instrument, temporality, scope, resource))
  {
    if points != [] {
      PointsNeverStop(points[..|points| - 1], instrument, temporality, scope, resource);
    }
  }

  // The misshapen instruments, counted on the body.

  /** A metric of a stored instrument that carries no sum. */
  predicate IsMisshapen(metric: Json) {
    && metric.Obj? && metric.dict.Get("name") in {Str("claude_code.cost.usage"), Str("claude_code.token.usage")}
    && !metric.dict.Get("sum").Obj?
  }

  function SumOf(items: seq<Json>, count: Json -> nat): nat {
    if items == [] then 0 else SumOf(items[..|items| - 1], count) + count(items[|items| - 1])
  }

  function MisshapenInScope(rt: Runtime, s: Json): nat {
    if !s.Obj? || LevelRaises(rt, s.dict.Get("scope")) then 0
    else SumOf(AsList(s.dict.Get("metrics")), (m: Json) => if IsMisshapen(m) then 1 else 0)
  }

  function MisshapenInResource(rt: Runtime, r: Json): nat {
    if !r.Obj? || LevelRaises(rt, r.dict.Get("resource")) then 0
    else SumOf(ScopeList(r.dict), (s: Json) => MisshapenInScope(rt, s))
  }

  lemma {:induction false} MisshapenConcat(a: seq<Arrival>, b: seq<Arrival>)
    ensures MisshapenIn(a + b) == MisshapenIn(a) + MisshapenIn(b)
    decreases |b|
  {
    if b == [] {
      assert a + b == a;
    } else {
      MisshapenConcat(a, b[..|b| - 1]);
      assert (a + b)[..|a + b| - 1] == a + b[..|b| - 1];
    }
  }

  lemma {:induction false} PointsAreNotMisshapen(points: seq<Json>, instrument: string, temporality: Temporality,
          scope: Attrs, resource: Attrs)
    ensures MisshapenIn(PointsFrom(points, instrument, temporality, scope, resource)) == 0
  {
    if points != [] {
      PointsAreNotMisshapen(points[..|points| - 1], instrument, temporality, scope, resource);
      var so := PointsFrom(points[..|points| - 1], instrument, temporality, scope, resource);
      if points[|points| - 1].Obj? {
        MisshapenConcat(so, [Arrived(Point(instrument, temporality, points[|points| - 1].dict, scope, resource))]);
      }
    }
  }

  lemma {:induction false} MisshapenInMetric(metric: Json, scope: Attrs, resource: Attrs)
    ensures MisshapenIn(FromMetric(metric, scope, resource)) == if IsMisshapen(metric) then 1 else 0
  {
    assert [Misshapen][..0] == [] && [Unhashable][..0] == [];
    if metric.Obj? && metric.dict.Get("name").Str? && metric.dict.Get("sum").Obj? {
      var name, sum := metric.dict.Get("name").s, metric.dict.Get("sum").dict;
      PointsAreNotMisshapen(AsList(Pick(sum, "dataPoints", "data_points")), name, TemporalityOf(WireTemporality(sum)), scope, resource);
    }
  }

  lemma {:induction false} MisshapenInMetrics(metrics: seq<Json>, scope: Attrs, resource: Attrs)
    ensures MisshapenIn(MetricsFrom(metrics, scope, resource)) == SumOf(metrics, (m: Json) => if IsMisshapen(m) then 1 else 0)
  {
    if metrics != [] {
      var n := |metrics| - 1;
      MisshapenInMetrics(metrics[..n], scope, resource);
      MisshapenConcat(MetricsFrom(metrics[..n], scope, resource), FromMetric(metrics[n], scope, resource));
      MisshapenInMetric(metrics[n], scope, resource);
    }
  }

  lemma {:induction false} MisshapenInScopes(rt: Runtime, scopes: seq<Json>, resource: Attrs)
    ensures MisshapenIn(ScopesFrom(rt, scopes, resource)) == SumOf(scopes, (s: Json) => MisshapenInScope(rt, s))
  {
    if scopes != [] {
      var n := |scopes| - 1;
      var last := scopes[n];
      MisshapenInScopes(rt, scopes[..n], resource);
      MisshapenConcat(ScopesFrom(rt, scopes[..n], resource), FromScope(rt, last, resource));
      assert [Overflowing][..0] == [];
      if last.Obj? {
        MisshapenInMetrics(AsList(last.dict.Get("metrics")), LevelAttrs(rt, last.dict.Get("scope")), resource);
      }
    }
  }

  /** The instruments counted as of an unsupported shape are exactly the metrics of a stored instrument without a sum, each once,
      in the levels that are walked. */
  lemma {:induction false} MisshapenAreCounted(rt: Runtime, resources: seq<Json>)
    ensures MisshapenIn(ResourcesFrom(rt, resources)) == SumOf(resources, (r: Json) => MisshapenInResource(rt, r))
  {
    if resources != [] {
      var n := |resources| - 1;
      var last := resources[n];
      MisshapenAreCounted(rt, resources[..n]);
      MisshapenConcat(ResourcesFrom(rt, resources[..n]), FromResource(rt, last));
      assert [Overflowing][..0] == [];
      if last.Obj? {
        MisshapenInScopes(rt, ScopeList(last.dict), LevelAttrs(rt, last.dict.Get("resource")));
      }
    }
  }
}
