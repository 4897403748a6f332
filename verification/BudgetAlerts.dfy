/** Threshold alerts: one ledger row per budget, period and threshold, and a notification only for the row's first writer. */
module BudgetAlerts {
  import opened BudgetPeriods
  import opened Calendar
  import opened Text

  datatype Scope = Workspace | Project(id: int) | Agent(profile: string)

  datatype Budget = Budget(id: int, scope: Scope, period: Period, limit: real, enabled: bool)

  datatype Alert = Alert(budget: int, periodStart: string, threshold: int)

  const THRESHOLDS := [50, 80, 100]

  /** The write an evaluation was called for; with neither part, every enabled budget is evaluated. */
  datatype Write = Write(project: Option<int>, profile: Option<string>)

  /** What is read anew for each budget: the period bounds by that moment's clock, the spend, and rounding to cents of a percent. */
  datatype Reading = Reading(bounds: Period -> Option<Bounds>, spend: (Scope, Bounds) -> real, round: real -> real)

  predicate Relevant(b: Budget, w: Write) {
    b.enabled &&
    (|| (w.project.None? && w.profile.None?)
     || match b.scope
        case Workspace => true
        case Project(id) => w.project == Some(id)
        case Agent(profile) => w.profile == Some(profile))
  }

  function Ratio(b: Budget, spent: real): real {
    if b.limit > 0.0 then spent / b.limit * 100.0 else 0.0
  }

  function Percent(b: Budget, now: Reading, bounds: Bounds): real {
    now.round(Ratio(b, now.spend(b.scope, bounds)))
  }

  /** The ledger rows an evaluation tries to insert for one budget, lowest threshold first. */
  function Crossed(b: Budget, w: Write, now: Reading): seq<Alert> {
    match now.bounds(b.period)
    case None => []
    case Some(bounds) => if Relevant(b, w) then CrossedFrom(b.id, Percent(b, now, bounds), bounds.start, THRESHOLDS) else []
  }

  function CrossedFrom(id: int, percent: real, start: string, thresholds: seq<int>): seq<Alert> {
    if thresholds == [] then []
    else
      var rest, last := CrossedFrom(id, percent, start, thresholds[..|thresholds| - 1]), thresholds[|thresholds| - 1];
      if percent >= last as real then rest + [Alert(id, start, last)] else rest
  }

  /** Whether computing this budget's bounds raises, which ends the evaluation. */
  predicate Raises(b: Budget, w: Write, now: Reading) {
    Relevant(b, w) && now.bounds(b.period).None?
  }

  /** One turn of the loop: a budget, and what is read for it. */
  datatype Visit = Visit(budget: Budget, now: Reading)

  /** All rows an evaluation of these budgets tries to insert, in order. */
  function Attempts(w: Write, visits: seq<Visit>): seq<Alert> {
    if visits == [] then []
    else Attempts(w, visits[..|visits| - 1]) + Crossed(visits[|visits| - 1].budget, w, visits[|visits| - 1].now)
  }

  /** An alert is attempted exactly when some relevant budget's spend has reached that threshold of its limit. */
  ghost predicate Reached(b: Budget, w: Write, now: Reading, a: Alert) {
    && Relevant(b, w) && now.bounds(b.period).Some?
    && a.budget == b.id && a.periodStart == now.bounds(b.period).value.start
    && a.threshold in THRESHOLDS && Percent(b, now, now.bounds(b.period).value) >= a.threshold as real
  }

  lemma {:induction false} CrossedFromIff(id: int, percent: real, start: string, thresholds: seq<int>, a: Alert)
    ensures a in CrossedFrom(id, percent, start, thresholds) <==>
            a.budget == id && a.periodStart == start && a.threshold in thresholds && percent >= a.threshold as real
  {
    if thresholds != [] {
      var rest, last := thresholds[..|thresholds| - 1], thresholds[|thresholds| - 1];
      assert thresholds == rest + [last];
      CrossedFromIff(id, percent, start, rest, a);
    }
  }

  lemma {:induction false} CrossedIff(b: Budget, w: Write, now: Reading, a: Alert)
    ensures a in Crossed(b, w, now) <==> Reached(b, w, now, a)
  {
    if now.bounds(b.period).Some? {
      var bounds := now.bounds(b.period).value;
      CrossedFromIff(b.id, Percent(b, now, bounds), bounds.start, THRESHOLDS, a);
    }
  }

  lemma {:induction false} AttemptedIff(w: Write, visits: seq<Visit>, a: Alert)
    ensures a in Attempts(w, visits) <==> exists v :: v in visits && Reached(v.budget, w, v.now, a)
  {
    if visits != [] {
      var rest, last := visits[..|visits| - 1], visits[|visits| - 1];
      assert visits == rest + [last];
      AttemptedIff(w, rest, a);
      CrossedIff(last.budget, w, last.now, a);
      if a in Crossed(last.budget, w, last.now) {
        assert last in visits && Reached(last.budget, w, last.now, a);
      } else if v :| v in rest && Reached(v.budget, w, v.now, a) {
        assert v in visits;
      }
    }
  }

  /** The ledger and the notifications sent so far. */
  datatype State = State(ledger: set<Alert>, sent: seq<Alert>)

  const START := State({}, [])

  /** `INSERT OR IGNORE`: only the writer that gets the row sends the notification. */
  function Try(s: State, a: Alert): State {
    if a in s.ledger then s else State(s.ledger + {a}, s.sent + [a])
  }

  function TryAll(s: State, attempts: seq<Alert>): State {
    if attempts == [] then s else Try(TryAll(s, attempts[..|attempts| - 1]), attempts[|attempts| - 1])
  }

  lemma {:induction false} TryConcat(s: State, a: seq<Alert>, b: seq<Alert>)
    ensures TryAll(s, a + b) == TryAll(TryAll(s, a), b)
    decreases |b|
  {
    if b == [] {
      assert a + b == a;
    } else {
      TryConcat(s, a, b[..|b| - 1]);
      assert (a + b)[..|a + b| - 1] == a + b[..|b| - 1];
    }
  }

  class Alerts {
    var ledger: set<Alert>
    var sent: seq<Alert>

    function Now(): State
      reads this
    {
      State(ledger, sent)
    }

    constructor ()
      ensures Now() == START
    {
      ledger, sent := {}, [];
    }

    method InsertOrIgnore(a: Alert) returns (inserted: bool)
      modifies this`ledger
      ensures inserted <==> a !in old(ledger)
      ensures ledger == old(ledger) + {a}
    {
      inserted := a !in ledger;
      ledger := ledger + {a};
    }

    /** Only the writer whose insert takes notifies. */
    method Notify(a: Alert) returns (fired: nat)
      modifies this
      ensures Now() == Try(old(Now()), a)
      ensures |sent| == |old(sent)| + fired
    {
      var inserted := InsertOrIgnore(a);
      fired := 0;
      if inserted {
        sent := sent + [a];
        fired := 1;
      }
    }

    method EvaluateBudget(b: Budget, bounds: Bounds, w: Write, now: Reading) returns (fired: nat)
      requires now.bounds(b.period) == Some(bounds) && Relevant(b, w)
      modifies this
      ensures Now() == TryAll(old(Now()), Crossed(b, w, now))
      ensures |sent| == |old(sent)| + fired
    {
      fired := 0;
      var percent := Percent(b, now, bounds);
      for i := 0 to |THRESHOLDS|
        invariant Now() == TryAll(old(Now()), CrossedFrom(b.id, percent, bounds.start, THRESHOLDS[..i]))
        invariant |sent| == |old(sent)| + fired
      {
        CrossedStep(old(Now()), b.id, percent, bounds.start, i);
        if percent >= THRESHOLDS[i] as real {
          var more := Notify(Alert(b.id, bounds.start, THRESHOLDS[i]));
          fired := fired + more;
        }
      }
      assert THRESHOLDS[..|THRESHOLDS|] == THRESHOLDS;
    }

    /** One turn of the loop; an irrelevant budget was never selected. */
    method EvaluateVisit(w: Write, b: Budget, now: Reading) returns (raised: bool, fired: nat)
      modifies this
      ensures raised <==> Raises(b, w, now)
      ensures Now() == TryAll(old(Now()), Crossed(b, w, now))
      ensures raised ==> Now() == old(Now())
      ensures |sent| == |old(sent)| + fired
    {
      raised, fired := false, 0;
      if Relevant(b, w) {
        match now.bounds(b.period) {
          case None => raised := true;
          case Some(bounds) => fired := EvaluateBudget(b, bounds, w, now);
        }
      }
    }

    /** `evaluate_alerts`: an exception from the calendar ends it at the first relevant budget whose period has no end. */
    method Evaluate(w: Write, visits: seq<Visit>) returns (fired: nat, done: nat)
      modifies this
      ensures Evaluated(w, visits, old(Now()), Now(), done)
      ensures done < |visits| ==> Raises(visits[done].budget, w, visits[done].now)
      ensures |sent| == |old(sent)| + fired
    {
      fired, done := 0, 0;
      while done < |visits|
        invariant Evaluated(w, visits, old(Now()), Now(), done)
        invariant |sent| == |old(sent)| + fired
      {
        ghost var mid := Now();
        var raised, more := EvaluateVisit(w, visits[done].budget, visits[done].now);
        fired := fired + more;
        if raised {
          assert Now() == mid;
          return;
        }
        EvaluatedStep(w, visits, old(Now()), mid, Now(), done);
        done := done + 1;
      }
    }
  }

  /** The first `done` budgets were evaluated, none of them raising, and their attempts are what was done. */
  ghost predicate Evaluated(w: Write, visits: seq<Visit>, before: State, after: State, done: nat) {
    && done <= |visits|
    && (forall i | 0 <= i < done :: !Raises(visits[i].budget, w, visits[i].now))
    && after == TryAll(before, Attempts(w, visits[..done]))
  }

  lemma {:induction false} EvaluatedStep(w: Write, visits: seq<Visit>, before: State, mid: State, after: State, done: nat)
    requires done < |visits| && Evaluated(w, visits, before, mid, done) && !Raises(visits[done].budget, w, visits[done].now)
    requires after == TryAll(mid, Crossed(visits[done].budget, w, visits[done].now))
    ensures Evaluated(w, visits, before, after, done + 1)
  {
    AttemptsStep(before, w, visits, done);
  }

  lemma {:induction false} CrossedFromStep(id: int, percent: real, start: string, i: nat)
    requires i < |THRESHOLDS|
    ensures CrossedFrom(id, percent, start, THRESHOLDS[..i + 1])
         == CrossedFrom(id, percent, start, THRESHOLDS[..i])
            + if percent >= THRESHOLDS[i] as real then [Alert(id, start, THRESHOLDS[i])] else []
  {
    assert THRESHOLDS[..i + 1][..i] == THRESHOLDS[..i];
  }

  lemma {:induction false} CrossedStep(s: State, id: int, percent: real, start: string, i: nat)
    requires i < |THRESHOLDS|
    ensures var before, a := CrossedFrom(id, percent, start, THRESHOLDS[..i]), Alert(id, start, THRESHOLDS[i]);
      TryAll(s, CrossedFrom(id, percent, start, THRESHOLDS[..i + 1]))
      == if percent >= THRESHOLDS[i] as real then Try(TryAll(s, before), a) else TryAll(s, before)
  {
    CrossedFromStep(id, percent, start, i);
    var before, a := CrossedFrom(id, percent, start, THRESHOLDS[..i]), Alert(id, start, THRESHOLDS[i]);
    assert (before + [a])[..|before|] == before && before + [] == before;
  }

  lemma {:induction false} AttemptsGrow(w: Write, visits: seq<Visit>, rest: seq<Visit>, last: Visit)
    requires visits == rest + [last]
    ensures Attempts(w, visits) == Attempts(w, rest) + Crossed(last.budget, w, last.now)
  {
    assert visits[..|visits| - 1] == rest;
  }

  lemma {:induction false} AttemptsStep(s: State, w: Write, visits: seq<Visit>, i: nat)
    requires i < |visits|
    ensures TryAll(s, Attempts(w, visits[..i + 1]))
         == TryAll(TryAll(s, Attempts(w, visits[..i])), Crossed(visits[i].budget, w, visits[i].now))
  {
    AttemptsGrow(w, visits[..i + 1], visits[..i], visits[i]);
    TryConcat(s, Attempts(w, visits[..i]), Crossed(visits[i].budget, w, visits[i].now));
  }

  // Any interleaving of evaluations.

  /** Every notification answers for one ledger row, and none is sent twice. */
  ghost predicate OncePerRow(s: State) {
    && (forall a :: a in s.ledger <==> a in s.sent)
    && forall i, j | 0 <= i < j < |s.sent| :: s.sent[i] != s.sent[j]
  }

  /** Whatever attempts arrive, in whatever order and however often, each row fires exactly once. */
  lemma {:induction false} EachFiresOnce(attempts: seq<Alert>)
    ensures OncePerRow(TryAll(START, attempts))
    ensures forall a :: a in TryAll(START, attempts).sent <==> a in attempts
  {
    if attempts != [] {
      var rest, last := attempts[..|attempts| - 1], attempts[|attempts| - 1];
      assert attempts == rest + [last];
      EachFiresOnce(rest);
    }
  }

  /** Each attempt comes after the lower thresholds of its own budget and period. */
  ghost predicate Ascending(attempts: seq<Alert>) {
    attempts == [] ||
    (Ascending(attempts[..|attempts| - 1]) && Supported(attempts[..|attempts| - 1], attempts[|attempts| - 1]))
  }

  ghost predicate Supported(attempts: seq<Alert>, a: Alert) {
    forall u | u in THRESHOLDS && u < a.threshold :: Alert(a.budget, a.periodStart, u) in attempts
  }

  ghost predicate DownwardClosed(ledger: set<Alert>) {
    forall a | a in ledger :: forall u | u in THRESHOLDS && u < a.threshold :: Alert(a.budget, a.periodStart, u) in ledger
  }

  /** A fired threshold has all the lower ones beside it. */
  lemma {:induction false} FiredSetIsDownwardClosed(attempts: seq<Alert>)
    requires Ascending(attempts)
    ensures DownwardClosed(TryAll(START, attempts).ledger)
  {
    if attempts != [] {
      var rest := attempts[..|attempts| - 1];
      FiredSetIsDownwardClosed(rest);
      EachFiresOnce(rest);
    }
  }

  /** One evaluation's attempts are ascending. */
  lemma {:induction false} EvaluationAscends(w: Write, visits: seq<Visit>)
    ensures Ascending(Attempts(w, visits))
  {
    if visits != [] {
      var rest, last := visits[..|visits| - 1], visits[|visits| - 1];
      EvaluationAscends(w, rest);
      var before := Attempts(w, rest);
      if last.now.bounds(last.budget.period).Some? && Relevant(last.budget, w) {
        var bounds := last.now.bounds(last.budget.period).value;
        BudgetAscends(before, last.budget.id, Percent(last.budget, last.now, bounds), bounds.start, |THRESHOLDS|);
        assert THRESHOLDS[..|THRESHOLDS|] == THRESHOLDS;
      } else {
        assert before + [] == before;
      }
    }
  }

  lemma {:induction false} ThresholdsAscend()
    ensures forall i, j | 0 <= i < j < |THRESHOLDS| :: THRESHOLDS[i] < THRESHOLDS[j]
  {
  }

  lemma {:induction false} LowerComesFirst(i: nat, u: int)
    requires i < |THRESHOLDS| && u in THRESHOLDS && u < THRESHOLDS[i]
    ensures u in THRESHOLDS[..i]
  {
    var j :| 0 <= j < |THRESHOLDS| && THRESHOLDS[j] == u;
    ThresholdsAscend();
    assert j < i;
    assert THRESHOLDS[..i][j] == u;
  }

  /** What crosses one threshold has crossed the lower ones. */
  lemma {:induction false} CrossedIsSupported(before: seq<Alert>, id: int, percent: real, start: string, i: nat)
    requires i < |THRESHOLDS| && percent >= THRESHOLDS[i] as real
    ensures Supported(before + CrossedFrom(id, percent, start, THRESHOLDS[..i]), Alert(id, start, THRESHOLDS[i]))
  {
    forall u | u in THRESHOLDS && u < THRESHOLDS[i]
      ensures Alert(id, start, u) in CrossedFrom(id, percent, start, THRESHOLDS[..i])
    {
      LowerComesFirst(i, u);
      CrossedFromIff(id, percent, start, THRESHOLDS[..i], Alert(id, start, u));
    }
  }

  lemma {:induction false} Extend(before: seq<Alert>, a: Alert)
    requires Ascending(before) && Supported(before, a)
    ensures Ascending(before + [a])
  {
    assert (before + [a])[..|before|] == before;
  }

  lemma {:induction false} ExtendIf(before: seq<Alert>, so: seq<Alert>, next: seq<Alert>, a: Alert, crossed: bool)
    requires next == so + if crossed then [a] else []
    requires Ascending(before + so) && (crossed ==> Supported(before + so, a))
    ensures Ascending(before + next)
  {
    if crossed {
      Extend(before + so, a);
      assert before + next == before + so + [a];
    } else {
      assert before + next == before + so;
    }
  }

  lemma {:induction false} BudgetAscends(before: seq<Alert>, id: int, percent: real, start: string, n: nat)
    requires Ascending(before) && n <= |THRESHOLDS|
    ensures Ascending(before + CrossedFrom(id, percent, start, THRESHOLDS[..n]))
  {
    if n == 0 {
      assert before + [] == before;
    } else {
      var t := THRESHOLDS[n - 1];
      BudgetAscends(before, id, percent, start, n - 1);
      CrossedFromStep(id, percent, start, n - 1);
      if percent >= t as real {
        CrossedIsSupported(before, id, percent, start, n - 1);
      }
      ExtendIf(before, CrossedFrom(id, percent, start, THRESHOLDS[..n - 1]), CrossedFrom(id, percent, start, THRESHOLDS[..n]),
               Alert(id, start, t), percent >= t as real);
    }
  }

  /** `c` is some interleaving of `a` and `b`. */
  ghost predicate Interleaves(c: seq<Alert>, a: seq<Alert>, b: seq<Alert>)
    decreases |c|
  {
    if c == [] then a == [] && b == []
    else
      var rest, last := c[..|c| - 1], c[|c| - 1];
      || (a != [] && a[|a| - 1] == last && Interleaves(rest, a[..|a| - 1], b))
      || (b != [] && b[|b| - 1] == last && Interleaves(rest, a, b[..|b| - 1]))
  }

  /** However two evaluations' statements interleave, they ascend; so concurrent Stop hooks keep both guarantees. */
  lemma {:induction false} InterleavingAscends(c: seq<Alert>, a: seq<Alert>, b: seq<Alert>)
    requires Interleaves(c, a, b) && Ascending(a) && Ascending(b)
    ensures Ascending(c)
    ensures forall x :: x in a || x in b ==> x in c
    decreases |c|
  {
    if c != [] {
      var rest, last := c[..|c| - 1], c[|c| - 1];
      assert c == rest + [last];
      if a != [] && a[|a| - 1] == last && Interleaves(rest, a[..|a| - 1], b) {
        assert a == a[..|a| - 1] + [last];
        InterleavingAscends(rest, a[..|a| - 1], b);
      } else {
        assert b == b[..|b| - 1] + [last];
        InterleavingAscends(rest, a, b[..|b| - 1]);
      }
    }
  }

  // On the real calendar.

  /** A moment at which some evaluation visits a budget: the date, and the charges of each scope by then. */
  datatype Moment = Moment(write: Write, budget: Budget, today: Date, charges: Scope -> seq<Charge>, round: real -> real)

  function ReadingAt(m: Moment): Reading
    requires Writable(m.today)
  {
    Reading(p => PeriodBounds(p, m.today), (scope, bounds) => Spend(m.charges(scope), bounds), m.round)
  }

  ghost predicate ReachedAt(m: Moment, a: Alert) {
    Writable(m.today) && Reached(m.budget, m.write, ReadingAt(m), a)
  }

  /** These attempts, in some order, are what evaluations made at these moments; so are any two such sequences interleaved. */
  ghost predicate AttemptedAt(attempts: seq<Alert>, moments: seq<Moment>) {
    forall a :: a in attempts <==> exists m :: m in moments && ReachedAt(m, a)
  }

  lemma {:induction false} EvaluationIsAttempted(w: Write, visits: seq<Visit>, moments: seq<Moment>)
    requires |visits| == |moments|
    requires forall i | 0 <= i < |visits| ::
      moments[i].write == w && Writable(moments[i].today) && visits[i] == Visit(moments[i].budget, ReadingAt(moments[i]))
    ensures AttemptedAt(Attempts(w, visits), moments)
  {
    forall a
      ensures a in Attempts(w, visits) <==> exists m :: m in moments && ReachedAt(m, a)
    {
      AttemptedIff(w, visits, a);
      if v :| v in visits && Reached(v.budget, w, v.now, a) {
        var i :| 0 <= i < |visits| && visits[i] == v;
        assert moments[i] in moments && ReachedAt(moments[i], a);
      }
      if m :| m in moments && ReachedAt(m, a) {
        var i :| 0 <= i < |moments| && moments[i] == m;
        assert visits[i] in visits && Reached(visits[i].budget, w, visits[i].now, a);
      }
    }
  }

  /** At this moment the budget's own period starts on that day, and the charges dated in it have reached the threshold. */
  ghost predicate Due(m: Moment, id: int, start: Date, threshold: int) {
    && Writable(m.today) && m.budget.id == id && Relevant(m.budget, m.write)
    && var w := WindowOf(m.budget.period, m.today);
       && w.start == start && !Covers(w, LAST_DAY)
       && threshold in THRESHOLDS
       && m.round(Ratio(m.budget, SpendOf(m.charges(m.budget.scope), m.budget.period, w))) >= threshold as real
  }

  lemma {:induction false} ReachedIffDue(m: Moment, id: int, start: Date, threshold: int)
    requires Writable(start)
    ensures ReachedAt(m, Alert(id, Stamp(start, ' ', MIDNIGHT), threshold)) <==> Due(m, id, start, threshold)
  {
    if Writable(m.today) {
      var p := m.budget.period;
      var w := WindowOf(p, m.today);
      StartIsNotAfter(p, m.today);
      PastTheLastDay(w);
      if PeriodBounds(p, m.today).Some? {
        SpendCountsEachOnce(m.charges(m.budget.scope), p, m.today);
        MidnightsNameDays(w.start, start);
      }
    }
  }

  /** Over any evaluations, however interleaved: a budget, a day and a threshold notify exactly when some evaluation visited the
      budget in a period starting that day whose own charges had reached the threshold; and then exactly once. */
  lemma {:induction false} NotifiedIffDue(attempts: seq<Alert>, moments: seq<Moment>, id: int, start: Date, threshold: int)
    requires AttemptedAt(attempts, moments) && Writable(start)
    ensures OncePerRow(TryAll(START, attempts))
    ensures Alert(id, Stamp(start, ' ', MIDNIGHT), threshold) in TryAll(START, attempts).sent <==>
            exists m :: m in moments && Due(m, id, start, threshold)
  {
    var a := Alert(id, Stamp(start, ' ', MIDNIGHT), threshold);
    EachFiresOnce(attempts);
    forall m | m in moments
      ensures ReachedAt(m, a) <==> Due(m, id, start, threshold)
    {
      ReachedIffDue(m, id, start, threshold);
    }
  }

  /** Two moments of one budget share their ledger rows exactly when their periods start on one day: with an unchanged period,
      when they lie in one window; across an edit of the period, the new one inherits what the old one fired. */
  lemma {:induction false} SharedRowIff(p: Period, a: Date, q: Period, b: Date)
    requires Writable(a) && Writable(b) && PeriodBounds(p, a).Some? && PeriodBounds(q, b).Some?
    ensures PeriodBounds(p, a).value.start == PeriodBounds(q, b).value.start <==> WindowOf(p, a).start == WindowOf(q, b).start
    ensures p == q ==> (WindowOf(p, a).start == WindowOf(q, b).start <==> WindowOf(p, a) == WindowOf(q, b))
  {
    StartIsNotAfter(p, a);
    StartIsNotAfter(q, b);
    MidnightsNameDays(WindowOf(p, a).start, WindowOf(q, b).start);
    if p == q {
      StartNamesPeriod(p, a, b);
    }
  }

  /** One such edit: on the first of a month, a daily budget made monthly stays silent at the thresholds its day already fired. */
  lemma {:induction false} EditedPeriodInheritsRows(today: Date)
    requires Writable(today) && today.d == 1 && PeriodBounds(Monthly, today).Some?
    ensures PeriodBounds(Daily, today).Some?
    ensures PeriodBounds(Daily, today).value.start == PeriodBounds(Monthly, today).value.start
    ensures WindowOf(Daily, today) != WindowOf(Monthly, today)
  {
    StartIsNotAfter(Daily, today);
    SharedRowIff(Daily, today, Monthly, today);
  }

  // Which budgets a write concerns, and when a threshold is reached.

  /** With neither part, every enabled budget; else the workspace's, the project's own and the profile's own, and no other. */
  lemma {:induction false} RelevantIff(b: Budget, w: Write)
    ensures Relevant(b, w) <==>
            && b.enabled
            && (|| w == Write(None, None) || b.scope == Workspace
                || (w.project.Some? && b.scope == Project(w.project.value))
                || (w.profile.Some? && b.scope == Agent(w.profile.value)))
  {
  }

  /** A percentage is reached exactly when that many hundredths of the limit are spent: a budget spent in full stands at 100. */
  lemma {:induction false} RatioReaches(b: Budget, spent: real, percent: int)
    requires b.limit > 0.0
    ensures Ratio(b, spent) >= percent as real <==> spent >= b.limit * percent as real / 100.0
    ensures Ratio(b, b.limit) == 100.0
  {
    var q := spent / b.limit;
    assert spent == q * b.limit;
    var p := percent as real / 100.0;
    assert q >= p <==> q * b.limit >= p * b.limit;
    assert b.limit * percent as real / 100.0 == p * b.limit;
  }
}
