/** The stored series: one row per identity, folded in place by the upsert, and what any sequence of arrivals leaves. */
module OtlpSeries {
  import opened OtlpPoints
  import opened Text

  datatype Identity = Identity(session: string, key: MetricKey, series: string)

  function IdOf(o: Observation): Identity {
    Identity(o.session, o.key, o.series)
  }

  datatype Row = Row(id: Identity, model: Option<string>, source: Option<string>, temporality: Temporality,
                     value: real, points: nat, created: int, lastSeen: int)

  /** An accepted observation and the moment it was stored at. */
  datatype Arrival = Arrival(obs: Observation, now: int)

  function Max(a: real, b: real): real {
    if a >= b then a else b
  }

  /** A cumulative arrival restates the running total, a delta adds to it. */
  function Combine(stored: real, o: Observation): real {
    if o.temporality == Cumulative then Max(stored, o.value) else stored + o.value
  }

  function Coalesce<T>(first: Option<T>, second: Option<T>): Option<T> {
    if first.Some? then first else second
  }

  function Fresh(a: Arrival): Row {
    Row(IdOf(a.obs), a.obs.model, a.obs.source, a.obs.temporality, a.obs.value, 1, a.now, a.now)
  }

  function Merged(row: Row, a: Arrival): Row {
    Row(row.id, Coalesce(a.obs.model, row.model), Coalesce(a.obs.source, row.source), a.obs.temporality,
        Combine(row.value, a.obs), row.points + 1, row.created, a.now)
  }

  /** `_UPSERT_SQL` over the rows in insertion order. */
  function Upsert(table: seq<Row>, a: Arrival): seq<Row> {
    if table == [] then [Fresh(a)]
    else if table[0].id == IdOf(a.obs) then [Merged(table[0], a)] + table[1..]
    else [table[0]] + Upsert(table[1..], a)
  }

  function UpsertAll(table: seq<Row>, h: seq<Arrival>): seq<Row> {
    if h == [] then table else Upsert(UpsertAll(table, h[..|h| - 1]), h[|h| - 1])
  }

  function Lookup(table: seq<Row>, id: Identity): Option<Row> {
    if table == [] then None else if table[0].id == id then Some(table[0]) else Lookup(table[1..], id)
  }

  /** The upsert touches its own identity's row and no other. */
  lemma {:induction false} UpsertTouchesOne(table: seq<Row>, a: Arrival, id: Identity)
    ensures Lookup(Upsert(table, a), id)
         == if id != IdOf(a.obs) then Lookup(table, id)
            else match Lookup(table, id) case None => Some(Fresh(a)) case Some(row) => Some(Merged(row, a))
  {
    if table != [] && table[0].id != IdOf(a.obs) {
      UpsertTouchesOne(table[1..], a, id);
    }
  }

  /** The unique index: no two rows share an identity. */
  ghost predicate Unique(table: seq<Row>) {
    forall i, j | 0 <= i < j < |table| :: table[i].id != table[j].id
  }

  function IdsIn(table: seq<Row>): (ids: seq<Identity>)
    ensures |ids| == |table| && forall i | 0 <= i < |ids| :: ids[i] == table[i].id
  {
    seq(|table|, i requires 0 <= i < |table| => table[i].id)
  }

  lemma {:induction false} UpsertLists(table: seq<Row>, a: Arrival)
    ensures IdsIn(Upsert(table, a)) == if IdOf(a.obs) in IdsIn(table) then IdsIn(table) else IdsIn(table) + [IdOf(a.obs)]
  {
    var id := IdOf(a.obs);
    if table == [] {
    } else if table[0].id == id {
      assert IdsIn(table)[0] == id;
    } else {
      UpsertLists(table[1..], a);
      assert IdsIn(table) == [table[0].id] + IdsIn(table[1..]);
      assert IdsIn(Upsert(table, a)) == [table[0].id] + IdsIn(Upsert(table[1..], a));
    }
  }

  lemma {:induction false} UpsertKeepsUnique(table: seq<Row>, a: Arrival)
    requires Unique(table)
    ensures Unique(Upsert(table, a))
  {
    UpsertLists(table, a);
    var after, ids := Upsert(table, a), IdsIn(Upsert(table, a));
    assert forall i | 0 <= i < |after| :: after[i].id == ids[i];
  }

  lemma {:induction false} RunKeepsUnique(table: seq<Row>, h: seq<Arrival>)
    requires Unique(table)
    ensures Unique(UpsertAll(table, h))
  {
    if h != [] {
      RunKeepsUnique(table, h[..|h| - 1]);
      UpsertKeepsUnique(UpsertAll(table, h[..|h| - 1]), h[|h| - 1]);
    }
  }

  // One series.

  /** The arrivals of one identity, in order. */
  function OfId(h: seq<Arrival>, id: Identity): seq<Arrival> {
    if h == [] then []
    else
      var rest, last := OfId(h[..|h| - 1], id), h[|h| - 1];
      if IdOf(last.obs) == id then rest + [last] else rest
  }

  /** The value a series of arrivals folds to. */
  function Folded(h: seq<Arrival>): real
    requires h != []
  {
    if |h| == 1 then h[0].obs.value else Combine(Folded(h[..|h| - 1]), h[|h| - 1].obs)
  }

  /** The latest label anything in the series carried. */
  function LatestModel(h: seq<Arrival>): Option<string> {
    if h == [] then None else Coalesce(h[|h| - 1].obs.model, LatestModel(h[..|h| - 1]))
  }

  function LatestSource(h: seq<Arrival>): Option<string> {
    if h == [] then None else Coalesce(h[|h| - 1].obs.source, LatestSource(h[..|h| - 1]))
  }

  /** The row a series of arrivals must have. */
  function Summary(id: Identity, h: seq<Arrival>): Row
    requires h != []
  {
    var last := h[|h| - 1];
    Row(id, LatestModel(h), LatestSource(h), last.obs.temporality, Folded(h), |h|, h[0].now, last.now)
  }

  /** After any arrivals the table holds, for each identity that arrived, exactly the fold of its own arrivals. */
  lemma {:induction false} RowsAreFolds(h: seq<Arrival>, id: Identity)
    ensures Lookup(UpsertAll([], h), id) == if OfId(h, id) == [] then None else Some(Summary(id, OfId(h, id)))
  {
    if h != [] {
      var rest, last := h[..|h| - 1], h[|h| - 1];
      RowsAreFolds(rest, id);
      UpsertTouchesOne(UpsertAll([], rest), last, id);
      if IdOf(last.obs) == id {
        SummaryGrows(id, OfId(rest, id), last);
      }
    }
  }

  lemma {:induction false} SummaryGrows(id: Identity, h: seq<Arrival>, a: Arrival)
    ensures Summary(id, h + [a]) == if h == [] then Fresh(a).(id := id) else Merged(Summary(id, h), a)
  {
    var g := h + [a];
    assert g[..|g| - 1] == h;
    assert LatestModel(g) == Coalesce(a.obs.model, LatestModel(h));
    assert LatestSource(g) == Coalesce(a.obs.source, LatestSource(h));
  }

  predicate All(h: seq<Arrival>, temporality: Temporality) {
    forall a | a in h :: a.obs.temporality == temporality
  }

  /** A cumulative series holds the largest of its arrivals. */
  lemma {:induction false} CumulativeIsMaximum(h: seq<Arrival>)
    requires h != [] && All(h, Cumulative)
    ensures forall a | a in h :: a.obs.value <= Folded(h)
    ensures exists a :: a in h && a.obs.value == Folded(h)
  {
    if |h| == 1 {
      assert h[0] in h;
    } else {
      var rest, last := h[..|h| - 1], h[|h| - 1];
      assert h == rest + [last] && last in h;
      CumulativeIsMaximum(rest);
      var a :| a in rest && a.obs.value == Folded(rest);
      assert a in h;
    }
  }

  /** So neither the order of cumulative arrivals nor repeats of them matter. */
  lemma {:induction false} CumulativeIgnoresOrderAndRepeats(h: seq<Arrival>, g: seq<Arrival>)
    requires h != [] && g != [] && All(h, Cumulative) && All(g, Cumulative)
    requires forall a :: a in h <==> a in g
    ensures Folded(h) == Folded(g)
  {
    CumulativeIsMaximum(h);
    CumulativeIsMaximum(g);
    var a :| a in h && a.obs.value == Folded(h);
    var b :| b in g && b.obs.value == Folded(g);
    assert a in g && b in h;
  }

  function Sum(h: seq<Arrival>): real {
    if h == [] then 0.0 else Sum(h[..|h| - 1]) + h[|h| - 1].obs.value
  }

  lemma {:induction false} DeltaIsSum(h: seq<Arrival>)
    requires h != [] && All(h, Delta)
    ensures Folded(h) == Sum(h)
  {
    if |h| > 1 {
      assert h[|h| - 1] in h;
      DeltaIsSum(h[..|h| - 1]);
    } else {
      assert Sum(h[..0]) == 0.0;
    }
  }

  lemma {:induction false} SumWithout(h: seq<Arrival>, i: nat)
    requires i < |h|
    ensures Sum(h) == Sum(h[..i] + h[i + 1..]) + h[i].obs.value
  {
    var n := |h| - 1;
    var rest := h[..i] + h[i + 1..];
    if i < n {
      SumWithout(h[..n], i);
      assert rest[..|rest| - 1] == h[..n][..i] + h[..n][i + 1..];
    } else {
      assert rest == h[..n];
    }
  }

  lemma {:induction false} MultisetWithout(h: seq<Arrival>, i: nat)
    requires i < |h|
    ensures multiset(h[..i] + h[i + 1..]) == multiset(h) - multiset{h[i]}
  {
    assert h == h[..i] + [h[i]] + h[i + 1..];
  }

  lemma {:induction false} SumIgnoresOrder(h: seq<Arrival>, g: seq<Arrival>)
    requires multiset(h) == multiset(g)
    ensures Sum(h) == Sum(g)
    decreases |h|
  {
    assert |multiset(h)| == |h| && |multiset(g)| == |g|;
    if h != [] {
      var n := |h| - 1;
      assert h[n] in multiset(g);
      var i: nat :| i < |g| && g[i] == h[n];
      SumWithout(g, i);
      MultisetWithout(g, i);
      MultisetWithout(h, n);
      assert h[..n] + h[n + 1..] == h[..n];
      SumIgnoresOrder(h[..n], g[..i] + g[i + 1..]);
    }
  }

  /** A delta series holds the sum of its arrivals, in whatever order they came. */
  lemma {:induction false} DeltaIgnoresOrder(h: seq<Arrival>, g: seq<Arrival>)
    requires h != [] && All(h, Delta) && multiset(h) == multiset(g)
    ensures g != [] && Folded(h) == Folded(g) == Sum(h)
  {
    assert h[0] in multiset(g);
    forall a | a in g
      ensures a.obs.temporality == Delta
    {
      assert a in multiset(h);
    }
    DeltaIsSum(h);
    DeltaIsSum(g);
    SumIgnoresOrder(h, g);
  }

  /** Whatever the mix, a stored value is never walked back down, and every cumulative arrival is covered. */
  lemma {:induction false} FoldNeverDecreases(h: seq<Arrival>, n: nat)
    requires 0 < n <= |h| && forall a | a in h :: a.obs.value >= 0.0
    ensures Folded(h[..n]) <= Folded(h)
    ensures forall a | a in h :: a.obs.value <= Folded(h)
    ensures 0.0 <= Folded(h)
  {
    var rest, last := h[..|h| - 1], h[|h| - 1];
    assert h == rest + [last] && last in h;
    if n < |h| {
      FoldNeverDecreases(rest, n);
      assert rest[..n] == h[..n];
    } else {
      assert h[..n] == h;
      if |h| > 1 {
        FoldNeverDecreases(rest, |h| - 1);
      }
    }
  }

  /** An export sent twice in a row is harmless exactly when the point restates a total, or carries nothing. */
  lemma {:induction false} RetryIsHarmlessIff(h: seq<Arrival>, a: Arrival)
    requires forall b | b in h + [a] :: b.obs.value >= 0.0
    ensures Folded(h + [a] + [a]) == Folded(h + [a]) <==> a.obs.temporality == Cumulative || a.obs.value == 0.0
  {
  }

  /** With both temporalities on one series the order matters, unless the delta is zero or the restated total is not above what
      is stored. */
  lemma {:induction false} MixedOrderMattersIff(h: seq<Arrival>, total: Arrival, more: Arrival)
    requires h != [] && (forall a | a in h + [total, more] :: a.obs.value >= 0.0)
    requires total.obs.temporality == Cumulative && more.obs.temporality == Delta
    ensures Folded(h + [total] + [more]) == Folded(h + [more] + [total]) <==> more.obs.value == 0.0 || total.obs.value <= Folded(h)
  {
    assert (h + [total] + [more])[..|h| + 1] == h + [total] && (h + [more] + [total])[..|h| + 1] == h + [more];
    assert (h + [total])[..|h|] == h == (h + [more])[..|h|];
    assert total in h + [total, more] && more in h + [total, more];
  }

  // A session's totals.

  /** `SUM(value) ... GROUP BY metric_key` for one session. */
  function SumOf(table: seq<Row>, session: string, key: MetricKey): real {
    if table == [] then 0.0
    else
      var row := table[|table| - 1];
      SumOf(table[..|table| - 1], session, key) + (if row.id.session == session && row.id.key == key then row.value else 0.0)
  }

  /** The identities that arrived, in order of first arrival. */
  function SeriesIn(h: seq<Arrival>): seq<Identity> {
    if h == [] then []
    else
      var rest, last := SeriesIn(h[..|h| - 1]), IdOf(h[|h| - 1].obs);
      if last in rest then rest else rest + [last]
  }

  /** The sum, over the session's distinct series of one metric, of what each one's arrivals fold to. */
  function SumOfFolds(ids: seq<Identity>, h: seq<Arrival>, session: string, key: MetricKey): real {
    if ids == [] then 0.0
    else
      var id := ids[|ids| - 1];
      SumOfFolds(ids[..|ids| - 1], h, session, key)
      + (if id.session == session && id.key == key && OfId(h, id) != [] then Folded(OfId(h, id)) else 0.0)
  }

  /** The table lists the series in the order they first arrived. */
  lemma {:induction false} TableListsSeries(h: seq<Arrival>)
    ensures IdsIn(UpsertAll([], h)) == SeriesIn(h)
  {
    if h != [] {
      TableListsSeries(h[..|h| - 1]);
      UpsertLists(UpsertAll([], h[..|h| - 1]), h[|h| - 1]);
    }
  }

  lemma {:induction false} LookupFinds(table: seq<Row>, i: nat)
    requires Unique(table) && i < |table|
    ensures Lookup(table, table[i].id) == Some(table[i])
  {
    if i > 0 {
      assert table[0].id != table[i].id;
      assert table[1..][i - 1] == table[i];
      LookupFinds(table[1..], i - 1);
    }
  }

  /** `session_totals`: the stored sums are the sums of the folds, per metric. */
  lemma {:induction false} TotalsAreSumsOfFolds(h: seq<Arrival>, session: string, key: MetricKey)
    ensures SumOf(UpsertAll([], h), session, key) == SumOfFolds(SeriesIn(h), h, session, key)
  {
    var table, ids := UpsertAll([], h), SeriesIn(h);
    TableListsSeries(h);
    RunKeepsUnique([], h);
    forall i: nat | i < |ids|
      ensures OfId(h, ids[i]) != [] && table[i].value == Folded(OfId(h, ids[i]))
    {
      LookupFinds(table, i);
      RowsAreFolds(h, ids[i]);
    }
    SumsAgree(table, ids, h, session, key);
  }

  lemma {:induction false} SumsAgree(table: seq<Row>, ids: seq<Identity>, h: seq<Arrival>, session: string, key: MetricKey)
    requires |table| == |ids|
    requires forall i | 0 <= i < |ids| :: table[i].id == ids[i] && OfId(h, ids[i]) != [] && table[i].value == Folded(OfId(h, ids[i]))
    ensures SumOf(table, session, key) == SumOfFolds(ids, h, session, key)
  {
    if ids != [] {
      SumsAgree(table[..|table| - 1], ids[..|ids| - 1], h, session, key);
    }
  }

  /** A cost series of the session that carries a model. */
  predicate Labelled(row: Row, session: string) {
    row.id.session == session && row.id.key == CostUsd && row.model.Some?
  }

  /** The model `session_totals` names: that of a labelled cost series none of the others exceeds. */
  method TopModel(table: seq<Row>, session: string) returns (model: Option<string>)
    ensures model.None? <==> forall row | row in table :: !Labelled(row, session)
    ensures model.Some? ==>
              exists row | row in table && Labelled(row, session) :: row.model == model
                && forall other | other in table && Labelled(other, session) :: other.value <= row.value
  {
    var top: Option<Row> := None;
    for i := 0 to |table|
      invariant top.None? ==> forall row | row in table[..i] :: !Labelled(row, session)
      invariant top.Some? ==> top.value in table[..i] && Labelled(top.value, session)
                              && forall other | other in table[..i] && Labelled(other, session) :: other.value <= top.value.value
    {
      if Labelled(table[i], session) && (top.None? || table[i].value > top.value.value) {
        top := Some(table[i]);
      }
    }
    assert table[..|table|] == table;
    model := if top.Some? then top.value.model else None;
  }
}
