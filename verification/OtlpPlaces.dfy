/** Where the data points of an export stand, told from the JSON alone, and that the walk meets exactly these, in order. */
module OtlpPlaces {
  import opened Json
  import opened OtlpPoints
  import opened OtlpParse
  import opened OtlpAccounting

  /** A resource, a scope in it, a metric in that, a data point in that. */
  datatype Place = Place(r: nat, s: nat, m: nat, p: nat)

  /** In the order of the document. */
  predicate Before(a: Place, b: Place) {
    || a.r < b.r
    || (a.r == b.r && (|| a.s < b.s
                       || (a.s == b.s && (a.m < b.m || (a.m == b.m && a.p < b.p)))))
  }

  /** What is under the camelCase name, or under the snake_case one where that is absent. */
  function ValueUnder(d: Dict, camel: string, snake: string): Json {
    if camel in d.entries then d.entries[camel] else if snake in d.entries then d.entries[snake] else Null
  }

  /** The list there; nothing else is a list. */
  function ListUnder(d: Dict, camel: string, snake: string): seq<Json> {
    if ValueUnder(d, camel, snake).Arr? then ValueUnder(d, camel, snake).items else []
  }

  function TemporalityUnder(sum: Dict): Json {
    ValueUnder(sum, "aggregationTemporality", "aggregation_temporality")
  }

  /** What the object at a level says of itself under `resource` or `scope`. */
  function SaidUnder(d: Dict, name: string): seq<Json> {
    if name in d.entries && d.entries[name].Obj? && "attributes" in d.entries[name].dict.entries
       && d.entries[name].dict.entries["attributes"].Arr?
    then d.entries[name].dict.entries["attributes"].items
    else []
  }

  /** This metric's `p`th data point, under a hashable temporality. */
  ghost predicate InMetric(metric: Json, scope: Attrs, resource: Attrs, p: nat, point: Point) {
    && metric.Obj? && metric.dict.Get("name") == Str(point.instrument) && point.instrument != ""
    && metric.dict.Get("sum").Obj?
    && var sum := metric.dict.Get("sum").dict;
       && !TemporalityUnder(sum).Arr? && !TemporalityUnder(sum).Obj? && point.temporality == TemporalityOf(TemporalityUnder(sum))
       && p < |ListUnder(sum, "dataPoints", "data_points")| && ListUnder(sum, "dataPoints", "data_points")[p] == Obj(point.body)
       && point.scope == scope && point.resource == resource
  }

  ghost predicate InScope(rt: Runtime, scope: Json, resource: Attrs, m: nat, p: nat, point: Point) {
    && scope.Obj? && !AttributesRaise(rt, SaidUnder(scope.dict, "scope"))
    && m < |ListUnder(scope.dict, "metrics", "metrics")|
    && InMetric(ListUnder(scope.dict, "metrics", "metrics")[m], AttributesOf(rt, SaidUnder(scope.dict, "scope")), resource, p, point)
  }

  ghost predicate InResource(rt: Runtime, resource: Json, s: nat, m: nat, p: nat, point: Point) {
    && resource.Obj? && !AttributesRaise(rt, SaidUnder(resource.dict, "resource"))
    && s < |ListUnder(resource.dict, "scopeMetrics", "scope_metrics")|
    && InScope(rt, ListUnder(resource.dict, "scopeMetrics", "scope_metrics")[s],
               AttributesOf(rt, SaidUnder(resource.dict, "resource")), m, p, point)
  }

  /** The data point that stands at a place of the body, with its metric's instrument and temporality and with its own scope's and
      resource's attributes. */
  ghost predicate StandsAt(rt: Runtime, body: Dict, at: Place, point: Point) {
    && at.r < |ListUnder(body, "resourceMetrics", "resource_metrics")|
    && InResource(rt, ListUnder(body, "resourceMetrics", "resource_metrics")[at.r], at.s, at.m, at.p, point)
  }

  // One generic step: a list of parts, each with its own places.

  /** The points stand at these places, which ascend; and these are all the places at which any point stands. */
  ghost predicate Listed(stands: (Place, Point) -> bool, places: seq<Place>, points: seq<Point>) {
    && |places| == |points|
    && (forall i | 0 <= i < |places| :: stands(places[i], points[i]))
    && (forall i, j | 0 <= i < j < |places| :: Before(places[i], places[j]))
    && forall at, point | stands(at, point) :: at in places
  }

  lemma {:induction false} ListedConcat(stands: (Place, Point) -> bool, a: seq<Place>, x: seq<Point>, b: seq<Place>, y: seq<Point>,
          front: (Place, Point) -> bool, back: (Place, Point) -> bool)
    requires Listed(front, a, x) && Listed(back, b, y)
    requires forall at, point :: stands(at, point) <==> front(at, point) || back(at, point)
    requires forall at, point, at', point' | front(at, point) && back(at', point') :: Before(at, at')
    ensures Listed(stands, a + b, x + y)
  {
    forall i, j | 0 <= i < j < |a + b|
      ensures Before((a + b)[i], (a + b)[j])
    {
      if i < |a| <= j {
        assert front(a[i], x[i]) && back(b[j - |a|], y[j - |a|]);
      }
    }
    forall at, point | stands(at, point)
      ensures at in a + b
    {
      assert at in a || at in b;
    }
  }

  /** What stands in a list of parts, and what stands in the one at this index. */
  ghost function AtList(items: seq<Json>, index: Place -> nat, part: (Json, Place, Point) -> bool): (Place, Point) -> bool {
    (at: Place, point: Point) => index(at) < |items| && part(items[index(at)], at, point)
  }

  ghost function AtOne(item: Json, n: nat, index: Place -> nat, part: (Json, Place, Point) -> bool): (Place, Point) -> bool {
    (at: Place, point: Point) => index(at) == n && part(item, at, point)
  }

  lemma {:induction false} LastPart(items: seq<Json>, index: Place -> nat, part: (Json, Place, Point) -> bool,
          a: seq<Place>, x: seq<Point>, b: seq<Place>, y: seq<Point>)
    requires items != []
    requires Listed(AtList(items[..|items| - 1], index, part), a, x)
    requires Listed(AtOne(items[|items| - 1], |items| - 1, index, part), b, y)
    requires forall i, at, j, at', p, p' | part(i, at, p) && part(j, at', p') && index(at) < index(at') :: Before(at, at')
    ensures Listed(AtList(items, index, part), a + b, x + y)
  {
    var n := |items| - 1;
    var front, back := AtList(items[..n], index, part), AtOne(items[n], n, index, part);
    forall at, point
      ensures AtList(items, index, part)(at, point) <==> front(at, point) || back(at, point)
    {
      if index(at) < n {
        assert items[..n][index(at)] == items[index(at)];
      }
    }
    ListedConcat(AtList(items, index, part), a, x, b, y, front, back);
  }

  lemma {:induction false} PointsConcat(a: seq<Arrival>, b: seq<Arrival>)
    ensures PointsOf(a + b) == PointsOf(a) + PointsOf(b)
    decreases |b|
  {
    if b == [] {
      assert a + b == a;
    } else {
      PointsConcat(a, b[..|b| - 1]);
      assert (a + b)[..|a + b| - 1] == a + b[..|b| - 1];
    }
  }

  // The points of a metric.

  ghost function AtPoints(points: seq<Json>, instrument: string, temporality: Temporality, scope: Attrs, resource: Attrs,
          r: nat, s: nat, m: nat): (Place, Point) -> bool {
    (at: Place, point: Point) =>
      at.r == r && at.s == s && at.m == m && at.p < |points| && points[at.p] == Obj(point.body)
      && point == Point(instrument, temporality, point.body, scope, resource)
  }

  lemma {:induction false} PointsListed(points: seq<Json>, instrument: string, temporality: Temporality, scope: Attrs, resource: Attrs,
          r: nat, s: nat, m: nat) returns (places: seq<Place>)
    ensures Listed(AtPoints(points, instrument, temporality, scope, resource, r, s, m), places,
                   PointsOf(PointsFrom(points, instrument, temporality, scope, resource)))
  {
    places := [];
    if points != [] {
      var n := |points| - 1;
      var rest := PointsListed(points[..n], instrument, temporality, scope, resource, r, s, m);
      places := rest;
      var so := PointsFrom(points[..n], instrument, temporality, scope, resource);
      if points[n].Obj? {
        places := rest + [Place(r, s, m, n)];
        var last := Point(instrument, temporality, points[n].dict, scope, resource);
        assert PointsFrom(points, instrument, temporality, scope, resource) == so + [Arrived(last)];
        assert (so + [Arrived(last)])[..|so|] == so;
        assert PointsOf(so + [Arrived(last)]) == PointsOf(so) + [last];
      }
      OneMorePoint(points, instrument, temporality, scope, resource, r, s, m, rest, PointsOf(so));
    }
  }

  lemma {:induction false} OneMorePoint(points: seq<Json>, instrument: string, temporality: Temporality, scope: Attrs, resource: Attrs,
          r: nat, s: nat, m: nat, places: seq<Place>, found: seq<Point>)
    requires points != []
    requires Listed(AtPoints(points[..|points| - 1], instrument, temporality, scope, resource, r, s, m), places, found)
    ensures var n := |points| - 1;
      var stands := AtPoints(points, instrument, temporality, scope, resource, r, s, m);
      if points[n].Obj?
      then Listed(stands, places + [Place(r, s, m, n)], found + [Point(instrument, temporality, points[n].dict, scope, resource)])
      else Listed(stands, places, found)
  {
    var n := |points| - 1;
    var before := AtPoints(points[..n], instrument, temporality, scope, resource, r, s, m);
    forall i | 0 <= i < |places|
      ensures Before(places[i], Place(r, s, m, n)) && places[i].p < n
    {
      assert before(places[i], found[i]);
    }
    forall at, point | AtPoints(points, instrument, temporality, scope, resource, r, s, m)(at, point)
      ensures at == Place(r, s, m, n) || at in places
    {
      if at.p < n {
        assert before(at, point);
      }
    }
  }

  ghost function MetricPart(scope: Attrs, resource: Attrs, r: nat, s: nat): (Json, Place, Point) -> bool {
    (metric: Json, at: Place, point: Point) => at.r == r && at.s == s && InMetric(metric, scope, resource, at.p, point)
  }

  ghost function AtMetric(metric: Json, scope: Attrs, resource: Attrs, r: nat, s: nat, m: nat): (Place, Point) -> bool {
    AtOne(metric, m, (at: Place) => at.m, MetricPart(scope, resource, r, s))
  }

  /** Every object under the metric's data points is walked, in order, with the metric's instrument and temporality. */
  lemma {:induction false} MetricListed(metric: Json, scope: Attrs, resource: Attrs, r: nat, s: nat, m: nat) returns (places: seq<Place>)
    ensures Listed(AtMetric(metric, scope, resource, r, s, m), places, PointsOf(FromMetric(metric, scope, resource)))
  {
    places := [];
    if metric.Obj? && metric.dict.Get("name").Str? && metric.dict.Get("name").s != "" && metric.dict.Get("sum").Obj?
       && !IsUnhashable(WireTemporality(metric.dict.Get("sum").dict)) {
      var name, sum := metric.dict.Get("name").s, metric.dict.Get("sum").dict;
      var points, temporality := ListUnder(sum, "dataPoints", "data_points"), TemporalityOf(WireTemporality(sum));
      places := PointsListed(points, name, temporality, scope, resource, r, s, m);
      SamePoints(metric, scope, resource, r, s, m);
      SameListing(AtPoints(points, name, temporality, scope, resource, r, s, m), AtMetric(metric, scope, resource, r, s, m),
                  places, PointsOf(FromMetric(metric, scope, resource)));
    } else {
      NoPoints(FromMetric(metric, scope, resource));
    }
  }

  lemma {:induction false} SamePoints(metric: Json, scope: Attrs, resource: Attrs, r: nat, s: nat, m: nat)
    requires metric.Obj? && metric.dict.Get("name").Str? && metric.dict.Get("name").s != "" && metric.dict.Get("sum").Obj?
    requires !IsUnhashable(WireTemporality(metric.dict.Get("sum").dict))
    ensures var sum := metric.dict.Get("sum").dict;
      var points, temporality := ListUnder(sum, "dataPoints", "data_points"), TemporalityOf(WireTemporality(sum));
      forall at, point ::
        AtPoints(points, metric.dict.Get("name").s, temporality, scope, resource, r, s, m)(at, point) <==>
        AtMetric(metric, scope, resource, r, s, m)(at, point)
  {
    assert WireTemporality(metric.dict.Get("sum").dict) == TemporalityUnder(metric.dict.Get("sum").dict);
  }

  lemma {:induction false} SameListing(stands: (Place, Point) -> bool, stands': (Place, Point) -> bool, places: seq<Place>,
          points: seq<Point>)
    requires Listed(stands, places, points) && forall at, point :: stands(at, point) <==> stands'(at, point)
    ensures Listed(stands', places, points)
  {
  }

  lemma {:induction false} NoPoints(arrivals: seq<Arrival>)
    requires |arrivals| <= 1 && forall a | a in arrivals :: !a.Arrived?
    ensures PointsOf(arrivals) == []
  {
    if arrivals != [] {
      assert arrivals[0] in arrivals && arrivals[..0] == [];
    }
  }

  // The levels above.

  lemma {:induction false} MetricsListed(metrics: seq<Json>, scope: Attrs, resource: Attrs, r: nat, s: nat) returns (places: seq<Place>)
    ensures Listed(AtList(metrics, (at: Place) => at.m, MetricPart(scope, resource, r, s)), places,
                   PointsOf(MetricsFrom(metrics, scope, resource)))
  {
    places := [];
    if metrics != [] {
      var n := |metrics| - 1;
      var front := MetricsListed(metrics[..n], scope, resource, r, s);
      var back := MetricListed(metrics[n], scope, resource, r, s, n);
      places := front + back;
      var x, y := MetricsFrom(metrics[..n], scope, resource), FromMetric(metrics[n], scope, resource);
      PointsConcat(x, y);
      LastPart(metrics, (at: Place) => at.m, MetricPart(scope, resource, r, s), front, PointsOf(x), back, PointsOf(y));
    }
  }

  ghost function ScopePart(rt: Runtime, resource: Attrs, r: nat): (Json, Place, Point) -> bool {
    (scope: Json, at: Place, point: Point) => at.r == r && InScope(rt, scope, resource, at.m, at.p, point)
  }

  ghost function AtScope(rt: Runtime, scope: Json, resource: Attrs, r: nat, s: nat): (Place, Point) -> bool {
    AtOne(scope, s, (at: Place) => at.s, ScopePart(rt, resource, r))
  }

  lemma {:induction false} SaidIsLevel(rt: Runtime, d: Dict, name: string)
    ensures LevelAttrs(rt, d.Get(name)) == AttributesOf(rt, SaidUnder(d, name))
    ensures LevelRaises(rt, d.Get(name)) <==> AttributesRaise(rt, SaidUnder(d, name))
  {
    assert AsList(LevelEntries(d.Get(name))) == SaidUnder(d, name);
  }

  lemma {:induction false} ScopeListed(rt: Runtime, scope: Json, resource: Attrs, r: nat, s: nat) returns (places: seq<Place>)
    ensures Listed(AtScope(rt, scope, resource, r, s), places, PointsOf(FromScope(rt, scope, resource)))
  {
    places := [];
    if scope.Obj? {
      SaidIsLevel(rt, scope.dict, "scope");
    }
    if scope.Obj? && !LevelRaises(rt, scope.dict.Get("scope")) {
      var metrics, attrs := ListUnder(scope.dict, "metrics", "metrics"), LevelAttrs(rt, scope.dict.Get("scope"));
      places := MetricsListed(metrics, attrs, resource, r, s);
      SameListing(AtList(metrics, (at: Place) => at.m, MetricPart(attrs, resource, r, s)), AtScope(rt, scope, resource, r, s),
                  places, PointsOf(FromScope(rt, scope, resource)));
    } else {
      NoPoints(FromScope(rt, scope, resource));
    }
  }

  lemma {:induction false} ScopesListed(rt: Runtime, scopes: seq<Json>, resource: Attrs, r: nat) returns (places: seq<Place>)
    ensures Listed(AtList(scopes, (at: Place) => at.s, ScopePart(rt, resource, r)), places, PointsOf(ScopesFrom(rt, scopes, resource)))
  {
    places := [];
    if scopes != [] {
      var n := |scopes| - 1;
      var front := ScopesListed(rt, scopes[..n], resource, r);
      var back := ScopeListed(rt, scopes[n], resource, r, n);
      places := front + back;
      var x, y := ScopesFrom(rt, scopes[..n], resource), FromScope(rt, scopes[n], resource);
      PointsConcat(x, y);
      LastPart(scopes, (at: Place) => at.s, ScopePart(rt, resource, r), front, PointsOf(x), back, PointsOf(y));
    }
  }

  ghost function ResourcePart(rt: Runtime): (Json, Place, Point) -> bool {
    (resource: Json, at: Place, point: Point) => InResource(rt, resource, at.s, at.m, at.p, point)
  }

  ghost function AtResource(rt: Runtime, resource: Json, r: nat): (Place, Point) -> bool {
    AtOne(resource, r, (at: Place) => at.r, ResourcePart(rt))
  }

  lemma {:induction false} ResourceListed(rt: Runtime, resource: Json, r: nat) returns (places: seq<Place>)
    ensures Listed(AtResource(rt, resource, r), places, PointsOf(FromResource(rt, resource)))
  {
    places := [];
    if resource.Obj? {
      SaidIsLevel(rt, resource.dict, "resource");
    }
    if resource.Obj? && !LevelRaises(rt, resource.dict.Get("resource")) {
      var scopes, attrs := ListUnder(resource.dict, "scopeMetrics", "scope_metrics"), LevelAttrs(rt, resource.dict.Get("resource"));
      places := ScopesListed(rt, scopes, attrs, r);
      SameListing(AtList(scopes, (at: Place) => at.s, ScopePart(rt, attrs, r)), AtResource(rt, resource, r),
                  places, PointsOf(FromResource(rt, resource)));
    } else {
      NoPoints(FromResource(rt, resource));
    }
  }

  lemma {:induction false} ResourcesListed(rt: Runtime, resources: seq<Json>) returns (places: seq<Place>)
    ensures Listed(AtList(resources, (at: Place) => at.r, ResourcePart(rt)), places, PointsOf(ResourcesFrom(rt, resources)))
  {
    places := [];
    if resources != [] {
      var n := |resources| - 1;
      var front := ResourcesListed(rt, resources[..n]);
      var back := ResourceListed(rt, resources[n], n);
      places := front + back;
      var x, y := ResourcesFrom(rt, resources[..n]), FromResource(rt, resources[n]);
      PointsConcat(x, y);
      LastPart(resources, (at: Place) => at.r, ResourcePart(rt), front, PointsOf(x), back, PointsOf(y));
    }
  }

  /** The points the walk meets are exactly the data points of the body, in the order of the document, each with its own metric's
      instrument and temporality and its own levels' attributes. */
  lemma {:induction false} WalkMeetsThePoints(rt: Runtime, body: Dict) returns (places: seq<Place>)
    ensures var points := PointsOf(Arrivals(rt, body));
      && |places| == |points|
      && (forall i | 0 <= i < |places| :: StandsAt(rt, body, places[i], points[i]))
      && (forall i, j | 0 <= i < j < |places| :: Before(places[i], places[j]))
      && forall at, point | StandsAt(rt, body, at, point) :: exists i :: 0 <= i < |places| && places[i] == at && points[i] == point
  {
    var resources := ListUnder(body, "resourceMetrics", "resource_metrics");
    places := ResourcesListed(rt, resources);
    assert ResourceList(body) == resources;
    ListedMeans(rt, body, places, PointsOf(Arrivals(rt, body)));
  }

  lemma {:induction false} OnePointAtAPlace(rt: Runtime, body: Dict, at: Place, point: Point, point': Point)
    requires StandsAt(rt, body, at, point) && StandsAt(rt, body, at, point')
    ensures point == point'
  {
  }

  lemma {:induction false} ListedMeans(rt: Runtime, body: Dict, places: seq<Place>, points: seq<Point>)
    requires Listed(AtList(ListUnder(body, "resourceMetrics", "resource_metrics"), (at: Place) => at.r, ResourcePart(rt)), places, points)
    ensures forall i | 0 <= i < |places| :: StandsAt(rt, body, places[i], points[i])
    ensures forall at, point | StandsAt(rt, body, at, point) :: exists i :: 0 <= i < |places| && places[i] == at && points[i] == point
  {
    var stands := AtList(ListUnder(body, "resourceMetrics", "resource_metrics"), (at: Place) => at.r, ResourcePart(rt));
    forall at, point
      ensures stands(at, point) <==> StandsAt(rt, body, at, point)
    {
    }
    forall i | 0 <= i < |places|
      ensures StandsAt(rt, body, places[i], points[i])
    {
      assert stands(places[i], points[i]);
    }
    forall at, point | StandsAt(rt, body, at, point)
      ensures exists i :: 0 <= i < |places| && places[i] == at && points[i] == point
    {
      assert stands(at, point);
      var i :| 0 <= i < |places| && places[i] == at;
      OnePointAtAPlace(rt, body, at, point, points[i]);
    }
  }

  /** Delta and cumulative on the wire: by number, by number in a string, or by name; anything else, or nothing, is cumulative. */
  lemma {:induction false} TemporalityIsTold(raw: Json)
    ensures raw == Num(Int(1)) || raw == Str("1") || raw == Str("AGGREGATION_TEMPORALITY_DELTA") ==> TemporalityOf(raw) == Delta
    ensures raw == Num(Int(2)) || raw == Str("2") || raw == Str("AGGREGATION_TEMPORALITY_CUMULATIVE") ==> TemporalityOf(raw) == Cumulative
    ensures raw == Null || raw == Num(Int(0)) || raw == Str("") ==> TemporalityOf(raw) == Cumulative
  {
    assert |"1"| != |"2"|  || "1"[0] != "2"[0];
    assert |"AGGREGATION_TEMPORALITY_DELTA"| != |"AGGREGATION_TEMPORALITY_CUMULATIVE"|;
  }
}
