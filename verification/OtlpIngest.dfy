/** Storing an export: the chunked session lookup, the series cap kept through a cache, and runs of many exports. */
module OtlpIngest {
  import opened Json
  import opened OtlpPoints
  import opened OtlpParse
  import opened OtlpAccounting
  import opened Text
  import S = OtlpSeries

  const MAX_SERIES_PER_SESSION := 2048
  const CHUNK := 200

  type SeriesSet = set<(MetricKey, string)>

  /** `SELECT metric_key, series_key ... WHERE session_id = ?`. */
  function SeriesOf(table: seq<S.Row>, session: string): SeriesSet {
    if table == [] then {}
    else
      var id := table[0].id;
      SeriesOf(table[1..], session) + if id.session == session then {(id.key, id.series)} else {}
  }

  function PairOf(o: Observation): (MetricKey, string) {
    (o.key, o.series)
  }

  /** The table, this export's refusals, and every arrival stored so far. */
  datatype Store = Store(table: seq<S.Row>, rejected: Tally, log: seq<S.Arrival>)

  /** Why an arrival is refused, decided on the table itself: an unknown session, or a new series for a full one. */
  function Refusal(sessions: set<string>, table: seq<S.Row>, a: S.Arrival): Option<Reason> {
    var series := SeriesOf(table, a.obs.session);
    if a.obs.session !in sessions then Some(UnknownSession)
    else if PairOf(a.obs) !in series && |series| >= MAX_SERIES_PER_SESSION then Some(SeriesCap)
    else None
  }

  /** What is not refused is stored. */
  function StoreOne(sessions: set<string>, s: Store, a: S.Arrival): Store {
    match Refusal(sessions, s.table, a)
    case Some(reason) => s.(rejected := Bump(s.rejected, reason))
    case None => s.(table := S.Upsert(s.table, a), log := s.log + [a])
  }

  function StoreAll(sessions: set<string>, s: Store, observations: seq<Observation>, now: int): Store {
    if observations == [] then s
    else StoreOne(sessions, StoreAll(sessions, s, observations[..|observations| - 1], now),
                  S.Arrival(observations[|observations| - 1], now))
  }

  lemma {:induction false} UpsertAddsItsSeries(table: seq<S.Row>, a: S.Arrival, session: string)
    ensures SeriesOf(S.Upsert(table, a), session) == SeriesOf(table, session) + if session == a.obs.session then {PairOf(a.obs)} else {}
  {
    if table == [] {
    } else if table[0].id == S.IdOf(a.obs) {
      assert S.Upsert(table, a)[1..] == table[1..];
    } else {
      UpsertAddsItsSeries(table[1..], a, session);
      assert S.Upsert(table, a)[1..] == S.Upsert(table[1..], a);
    }
  }

  /** The cache holds, for every session read so far, the series the table has. */
  ghost predicate CacheIsTable(cache: map<string, SeriesSet>, table: seq<S.Row>) {
    forall session | session in cache :: cache[session] == SeriesOf(table, session)
  }

  lemma {:induction false} CacheFollowsTable(cache: map<string, SeriesSet>, table: seq<S.Row>, a: S.Arrival)
    requires CacheIsTable(cache, table) && a.obs.session in cache
    ensures CacheIsTable(cache[a.obs.session := cache[a.obs.session] + {PairOf(a.obs)}], S.Upsert(table, a))
  {
    var cache', table' := cache[a.obs.session := cache[a.obs.session] + {PairOf(a.obs)}], S.Upsert(table, a);
    forall session | session in cache'
      ensures cache'[session] == SeriesOf(table', session)
    {
      UpsertAddsItsSeries(table, a, session);
    }
  }

  lemma {:induction false} AddingKnownIsIdle(cache: map<string, SeriesSet>, session: string, pair: (MetricKey, string))
    requires session in cache && pair in cache[session]
    ensures cache[session := cache[session] + {pair}] == cache
  {
    assert cache[session] + {pair} == cache[session];
  }

  lemma {:induction false} StoreAllStep(sessions: set<string>, s: Store, observations: seq<Observation>, i: nat, now: int)
    requires i < |observations|
    ensures StoreAll(sessions, s, observations[..i + 1], now)
         == StoreOne(sessions, StoreAll(sessions, s, observations[..i], now), S.Arrival(observations[i], now))
  {
    assert observations[..i + 1][..i] == observations[..i];
  }

  /** `parse_export`, when it does not raise. */
  function ParsedOf(rt: Runtime, body: Dict): Parsed {
    ArriveAll(JudgeWith(rt), NOTHING, Arrivals(rt, body))
  }

  /** The walk raises, or an accepted point's session has no encoding to look it up by. */
  ghost predicate IngestRaises(rt: Runtime, body: Dict) {
    || RaisesAll(JudgeWith(rt), NOTHING, Arrivals(rt, body))
    || exists o | o in ParsedOf(rt, body).observations :: !rt.encodes(o.session)
  }

  /** `IngestResult`. */
  datatype Result = Result(accepted: nat, rejected: Tally, seen: nat)

  class Receiver {
    var table: seq<S.Row>

    constructor ()
      ensures table == []
    {
      table := [];
    }

    /** `_known_sessions`: two hundred ids a statement. Binding an id that has no encoding raises. */
    static method KnownSessions(rt: Runtime, ids: seq<string>, sessions: set<string>) returns (raised: bool, known: set<string>)
      ensures raised <==> exists id | id in ids :: !rt.encodes(id)
      ensures !raised ==> known == (set id | id in ids && id in sessions)
    {
      raised, known := false, {};
      var start := 0;
      while start < |ids|
        invariant 0 <= start
        invariant forall id | id in ids[..if start < |ids| then start else |ids|] :: rt.encodes(id)
        invariant known == (set id | id in ids[..if start < |ids| then start else |ids|] && id in sessions)
        decreases |ids| - start
      {
        var stop := if start + CHUNK < |ids| then start + CHUNK else |ids|;
        var chunk := ids[start..stop];
        if !(forall id | id in chunk :: rt.encodes(id)) {
          return true, known;
        }
        var rows := set id | id in chunk && id in sessions;
        assert ids[..stop] == ids[..start] + chunk;
        known := known + rows;
        start := start + CHUNK;
      }
      assert ids[..|ids|] == ids;
    }

    /** The write loop of `ingest`. Each session's series are read once and then kept current by hand. */
    method StoreObservations(observations: seq<Observation>, known: set<string>, parsed: Tally,
            now: int) returns (rejected: Tally, accepted: nat)
      modifies this`table
      ensures var after := StoreAll(known, Store(old(table), parsed, []), observations, now);
        table == after.table && rejected == after.rejected && accepted == |after.log|
    {
      var cache: map<string, SeriesSet> := map[];
      rejected, accepted := parsed, 0;
      ghost var before, now' := Store(table, parsed, []), Store(table, parsed, []);
      for i := 0 to |observations|
        invariant CacheIsTable(cache, table)
        invariant now' == StoreAll(known, before, observations[..i], now)
        invariant now'.table == table && now'.rejected == rejected && |now'.log| == accepted
      {
        var a := S.Arrival(observations[i], now);
        StoreAllStep(known, before, observations, i, now);
        var stored;
        ghost var was := now';
        now' := StoreOne(known, now', a);
        stored, cache, rejected := StoreObservation(a, known, cache, rejected, was);
        if stored {
          accepted := accepted + 1;
        }
      }
      assert observations[..|observations|] == observations;
    }

    /** One turn of the loop. */
    method StoreObservation(a: S.Arrival, known: set<string>, cache0: map<string, SeriesSet>, rejected0: Tally, ghost was: Store)
      returns (stored: bool, cache: map<string, SeriesSet>, rejected: Tally)
      requires CacheIsTable(cache0, table) && was.table == table && was.rejected == rejected0
      modifies this`table
      ensures CacheIsTable(cache, table)
      ensures var now := StoreOne(known, was, a);
        now.table == table && now.rejected == rejected && |now.log| == |was.log| + if stored then 1 else 0
    {
      var refusal;
      refusal, cache := Admit(a, known, cache0);
      stored, rejected := refusal.None?, rejected0;
      if !stored {
        rejected := Bump(rejected, refusal.value);
        return;
      }
      CacheFollowsTable(cache, table, a);
      table := S.Upsert(table, a);
      if PairOf(a.obs) !in cache[a.obs.session] {
        cache := cache[a.obs.session := cache[a.obs.session] + {PairOf(a.obs)}];
      } else {
        AddingKnownIsIdle(cache, a.obs.session, PairOf(a.obs));
      }
    }

    /** The two refusals, decided on the cache where the specification decides on the table. */
    method Admit(a: S.Arrival, known: set<string>, cache0: map<string, SeriesSet>) returns (refusal: Option<Reason>,
            cache: map<string, SeriesSet>)
      requires CacheIsTable(cache0, table)
      ensures CacheIsTable(cache, table)
      ensures refusal == Refusal(known, table, a)
      ensures refusal.None? ==> a.obs.session in cache
    {
      cache := cache0;
      var session := a.obs.session;
      if session !in known {
        return Some(UnknownSession), cache;
      }
      if session !in cache {
        cache := cache[session := SeriesOf(table, session)];
      }
      var existing := cache[session];
      if PairOf(a.obs) !in existing && |existing| >= MAX_SERIES_PER_SESSION {
        return Some(SeriesCap), cache;
      }
      return None, cache;
    }

    /** `ingest` past the decoding: nothing is stored when it raises, since every write comes after. Each call continues any run
        of calls that left this table. */
    method Ingest(rt: Runtime, body: Dict, sessions: set<string>, now: int) returns (raised: bool, result: Result)
      modifies this`table
      ensures raised <==> IngestRaises(rt, body)
      ensures forall requests | old(table) == TableAfter(rt, requests) ::
                table == TableAfter(rt, requests + [Request(body, sessions, now)])
      ensures raised ==> table == old(table)
      ensures !raised ==>
                var parsed := ParsedOf(rt, body);
                var after := StoreAll(sessions, Store(old(table), parsed.rejected, []), parsed.observations, now);
                table == after.table && result == Result(|after.log|, after.rejected, parsed.seen)
    {
      var parser := new Parser(rt, JudgeWith(rt));
      raised := parser.Export(body);
      result := Result(0, map[], 0);
      if raised {
        return;
      }
      var wanted := SessionsOf(parser.observations);
      var known;
      raised, known := KnownSessions(rt, wanted, sessions);
      if raised {
        return;
      }
      KnownIsEnough(sessions, known, Store(table, parser.rejected, []), parser.observations, now);
      var rejected, accepted := StoreObservations(parser.observations, known, parser.rejected, now);
      result := Result(accepted, rejected, parser.seen);
    }
  }

  /** The distinct session ids of an export, in some order. */
  method SessionsOf(observations: seq<Observation>) returns (ids: seq<string>)
    ensures forall o | o in observations :: o.session in ids
    ensures forall id | id in ids :: exists o | o in observations :: o.session == id
    ensures forall i, j | 0 <= i < j < |ids| :: ids[i] != ids[j]
  {
    ids := [];
    for i := 0 to |observations|
      invariant forall o | o in observations[..i] :: o.session in ids
      invariant forall id | id in ids :: exists o | o in observations[..i] :: o.session == id
      invariant forall i, j | 0 <= i < j < |ids| :: ids[i] != ids[j]
    {
      if observations[i].session !in ids {
        ids := ids + [observations[i].session];
      }
    }
  }

  /** Looking only the export's own sessions up decides each observation as the whole table of sessions would. */
  lemma {:induction false} KnownIsEnough(sessions: set<string>, known: set<string>, s: Store,
          observations: seq<Observation>, now: int)
    requires forall o | o in observations :: o.session in known <==> o.session in sessions
    ensures StoreAll(known, s, observations, now) == StoreAll(sessions, s, observations, now)
  {
    if observations != [] {
      KnownIsEnough(sessions, known, s, observations[..|observations| - 1], now);
      assert observations[|observations| - 1] in observations;
    }
  }

  // The cap.

  ghost predicate Capped(table: seq<S.Row>) {
    forall session :: |SeriesOf(table, session)| <= MAX_SERIES_PER_SESSION
  }

  function RowsOf(table: seq<S.Row>, session: string): nat {
    if table == [] then 0 else RowsOf(table[1..], session) + if table[0].id.session == session then 1 else 0
  }

  lemma {:induction false} UnlistedSeries(table: seq<S.Row>, id: S.Identity)
    requires forall i | 0 <= i < |table| :: table[i].id != id
    ensures (id.key, id.series) !in SeriesOf(table, id.session)
  {
    if table != [] {
      assert forall i | 0 <= i < |table[1..]| :: table[1..][i] == table[i + 1];
      UnlistedSeries(table[1..], id);
    }
  }

  /** Counting a session's series is counting its rows. */
  lemma {:induction false} SeriesAreRows(table: seq<S.Row>, session: string)
    requires S.Unique(table)
    ensures |SeriesOf(table, session)| == RowsOf(table, session)
  {
    if table != [] {
      assert forall i | 0 <= i < |table[1..]| :: table[1..][i] == table[i + 1];
      SeriesAreRows(table[1..], session);
      UnlistedSeries(table[1..], table[0].id);
    }
  }

  lemma {:induction false} UpsertKeepsCap(table: seq<S.Row>, a: S.Arrival, session: string)
    requires |SeriesOf(table, session)| <= MAX_SERIES_PER_SESSION
    requires session == a.obs.session && PairOf(a.obs) !in SeriesOf(table, session) ==> |SeriesOf(table, session)| < MAX_SERIES_PER_SESSION
    ensures |SeriesOf(S.Upsert(table, a), session)| <= MAX_SERIES_PER_SESSION
  {
    UpsertAddsItsSeries(table, a, session);
    var series := SeriesOf(table, session);
    if session == a.obs.session {
      AddOne(series, PairOf(a.obs));
    } else {
      assert series + {} == series;
    }
  }

  lemma {:induction false} AddOne<T>(s: set<T>, x: T)
    ensures |s + {x}| == |s| + if x in s then 0 else 1
  {
    if x in s {
      assert s + {x} == s;
    }
  }

  lemma {:induction false} StoreKeepsCap(sessions: set<string>, s: Store, a: S.Arrival)
    requires Capped(s.table)
    ensures Capped(StoreOne(sessions, s, a).table)
  {
    var after := StoreOne(sessions, s, a);
    if after.table != s.table {
      forall session
        ensures |SeriesOf(after.table, session)| <= MAX_SERIES_PER_SESSION
      {
        UpsertKeepsCap(s.table, a, session);
      }
    }
  }

  /** An arrival on a series that has a row is stored, however full the session is. */
  lemma {:induction false} ExistingSeriesIsNeverRefused(sessions: set<string>, s: Store, a: S.Arrival)
    requires a.obs.session in sessions && S.Lookup(s.table, S.IdOf(a.obs)).Some?
    ensures StoreOne(sessions, s, a) == Store(S.Upsert(s.table, a), s.rejected, s.log + [a])
  {
    LookupIsListed(s.table, S.IdOf(a.obs));
  }

  lemma {:induction false} LookupIsListed(table: seq<S.Row>, id: S.Identity)
    requires S.Lookup(table, id).Some?
    ensures (id.key, id.series) in SeriesOf(table, id.session)
  {
    if table[0].id != id {
      LookupIsListed(table[1..], id);
    }
  }

  // Runs.

  datatype Export = Export(observations: seq<Observation>, sessions: set<string>, now: int)

  /** Any sequence of exports into an empty table. */
  function Run(exports: seq<Export>): Store {
    if exports == [] then Store([], map[], [])
    else
      var e := exports[|exports| - 1];
      StoreAll(e.sessions, Run(exports[..|exports| - 1]), e.observations, e.now)
  }

  /** What an export does to the table does not depend on the books kept beside it. */
  lemma {:induction false} TableIgnoresBooks(sessions: set<string>, s: Store, t: Store, observations: seq<Observation>, now: int)
    requires s.table == t.table
    ensures StoreAll(sessions, s, observations, now).table == StoreAll(sessions, t, observations, now).table
  {
    if observations != [] {
      TableIgnoresBooks(sessions, s, t, observations[..|observations| - 1], now);
    }
  }

  /** A store is the upserts of its own log, within the cap. */
  ghost predicate Sound(s: Store) {
    s.table == S.UpsertAll([], s.log) && Capped(s.table)
  }

  lemma {:induction false} StoreAllIsSound(sessions: set<string>, s: Store, observations: seq<Observation>, now: int)
    requires Sound(s)
    ensures Sound(StoreAll(sessions, s, observations, now))
  {
    if observations != [] {
      var n := |observations| - 1;
      StoreAllIsSound(sessions, s, observations[..n], now);
      var before, a := StoreAll(sessions, s, observations[..n], now), S.Arrival(observations[n], now);
      StoreKeepsCap(sessions, before, a);
      assert (before.log + [a])[..|before.log|] == before.log;
    }
  }

  lemma {:induction false} RunIsSound(exports: seq<Export>)
    ensures Sound(Run(exports))
  {
    if exports == [] {
      assert forall session :: SeriesOf([], session) == {};
    } else {
      var e := exports[|exports| - 1];
      RunIsSound(exports[..|exports| - 1]);
      StoreAllIsSound(e.sessions, Run(exports[..|exports| - 1]), e.observations, e.now);
    }
  }

  /** After any run of exports: no session exceeds the cap, every row is the fold of its own arrivals, and totals are sums of folds. */
  lemma {:induction false} RunsFold(exports: seq<Export>, id: S.Identity, key: MetricKey)
    ensures var s := Run(exports);
      && S.Unique(s.table)
      && RowsOf(s.table, id.session) <= MAX_SERIES_PER_SESSION
      && (S.Lookup(s.table, id) == if S.OfId(s.log, id) == [] then None else Some(S.Summary(id, S.OfId(s.log, id))))
      && S.SumOf(s.table, id.session, key) == S.SumOfFolds(S.SeriesIn(s.log), s.log, id.session, key)
  {
    var s := Run(exports);
    RunIsSound(exports);
    S.RunKeepsUnique([], s.log);
    SeriesAreRows(s.table, id.session);
    S.RowsAreFolds(s.log, id);
    S.TotalsAreSumsOfFolds(s.log, id.session, key);
  }

  /** One call of `Ingest`. */
  datatype Request = Request(body: Dict, sessions: set<string>, now: int)

  /** The table after a run of calls: a body that raises leaves it alone, any other stores its parse with books of its own. */
  ghost function TableAfter(rt: Runtime, requests: seq<Request>): seq<S.Row> {
    if requests == [] then []
    else
      var before, r := TableAfter(rt, requests[..|requests| - 1]), requests[|requests| - 1];
      if IngestRaises(rt, r.body) then before
      else StoreAll(r.sessions, Store(before, ParsedOf(rt, r.body).rejected, []), ParsedOf(rt, r.body).observations, r.now).table
  }

  /** The exports that were stored. */
  ghost function ExportsOf(rt: Runtime, requests: seq<Request>): seq<Export> {
    if requests == [] then []
    else
      var before, r := ExportsOf(rt, requests[..|requests| - 1]), requests[|requests| - 1];
      if IngestRaises(rt, r.body) then before else before + [Export(ParsedOf(rt, r.body).observations, r.sessions, r.now)]
  }

  lemma {:induction false} RequestsRun(rt: Runtime, requests: seq<Request>)
    ensures TableAfter(rt, requests) == Run(ExportsOf(rt, requests)).table
  {
    if requests != [] {
      var front, r := requests[..|requests| - 1], requests[|requests| - 1];
      RequestsRun(rt, front);
      if !IngestRaises(rt, r.body) {
        var p, exports := ParsedOf(rt, r.body), ExportsOf(rt, front);
        TableIgnoresBooks(r.sessions, Run(exports), Store(TableAfter(rt, front), p.rejected, []), p.observations, r.now);
        RunGrows(exports, Export(p.observations, r.sessions, r.now));
      }
    }
  }

  lemma {:induction false} RunGrows(exports: seq<Export>, e: Export)
    ensures Run(exports + [e]) == StoreAll(e.sessions, Run(exports), e.observations, e.now)
  {
    assert (exports + [e])[..|exports|] == exports;
  }

  /** The arrivals stored over a run of calls. */
  ghost function LogOf(rt: Runtime, requests: seq<Request>): seq<S.Arrival> {
    Run(ExportsOf(rt, requests)).log
  }

  /** After any run of calls to `Ingest`, raising or not: no session exceeds the cap, every row is the fold of its own stored
      arrivals, and totals are sums of folds. */
  lemma {:induction false} RequestsFold(rt: Runtime, requests: seq<Request>, id: S.Identity, key: MetricKey)
    ensures var table, log := TableAfter(rt, requests), LogOf(rt, requests);
      && S.Unique(table)
      && RowsOf(table, id.session) <= MAX_SERIES_PER_SESSION
      && (S.Lookup(table, id) == if S.OfId(log, id) == [] then None else Some(S.Summary(id, S.OfId(log, id))))
      && S.SumOf(table, id.session, key) == S.SumOfFolds(S.SeriesIn(log), log, id.session, key)
  {
    RequestsRun(rt, requests);
    RunsFold(ExportsOf(rt, requests), id, key);
  }

  // The books of one export.

  lemma {:induction false} StoringCloses(sessions: set<string>, s: Store, observations: seq<Observation>, now: int)
    ensures var after := StoreAll(sessions, s, observations, now);
      && |after.log| + Total(after.rejected) == |s.log| + Total(s.rejected) + |observations|
      && Count(after.rejected, UnsupportedShape) == Count(s.rejected, UnsupportedShape)
  {
    if observations != [] {
      var n := |observations| - 1;
      StoringCloses(sessions, s, observations[..n], now);
      var before := StoreAll(sessions, s, observations[..n], now);
      BumpAddsOneToTotal(before.rejected, UnknownSession);
      BumpAddsOneToTotal(before.rejected, SeriesCap);
    }
  }

  /** Accepted plus rejected is what was seen plus the instruments of an unsupported shape. */
  lemma {:induction false} IngestCloses(rt: Runtime, body: Dict, sessions: set<string>, table: seq<S.Row>, now: int)
    requires !RaisesAll(JudgeWith(rt), NOTHING, Arrivals(rt, body))
    ensures var parsed := ArriveAll(JudgeWith(rt), NOTHING, Arrivals(rt, body));
      var after := StoreAll(sessions, Store(table, parsed.rejected, []), parsed.observations, now);
      |after.log| + Total(after.rejected) == parsed.seen + Count(after.rejected, UnsupportedShape)
  {
    var parsed := ArriveAll(JudgeWith(rt), NOTHING, Arrivals(rt, body));
    JudgeIsRegular(rt);
    AccountingCloses(JudgeWith(rt), Arrivals(rt, body));
    StoringCloses(sessions, Store(table, parsed.rejected, []), parsed.observations, now);
  }

  lemma {:induction false} ListedIffLookup(table: seq<S.Row>, id: S.Identity)
    ensures (id.key, id.series) in SeriesOf(table, id.session) <==> S.Lookup(table, id).Some?
  {
    if table != [] {
      ListedIffLookup(table[1..], id);
    }
  }

  /** An arrival is stored exactly when its session is known and it has a row already or its session has room for one more; else it
      is refused for an unknown session or for the cap, and leaves the table and the log alone. */
  lemma {:induction false} StoredIff(sessions: set<string>, s: Store, a: S.Arrival)
    requires S.Unique(s.table)
    ensures var after, known := StoreOne(sessions, s, a), a.obs.session in sessions;
      var room := S.Lookup(s.table, S.IdOf(a.obs)).Some? || RowsOf(s.table, a.obs.session) < 2048;
      if known && room then after == Store(S.Upsert(s.table, a), s.rejected, s.log + [a])
      else
        && after.table == s.table && after.log == s.log
        && after.rejected == Bump(s.rejected, if known then SeriesCap else UnknownSession)
  {
    ListedIffLookup(s.table, S.IdOf(a.obs));
    SeriesAreRows(s.table, a.obs.session);
  }
}
