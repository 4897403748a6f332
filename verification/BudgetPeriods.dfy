/** Budget periods: calendar windows that tile time, compared as strings. */
module BudgetPeriods {
  import opened Calendar
  import opened Text
  import opened Timestamps

  datatype Period = Daily | Weekly | Monthly

  datatype Window = Window(start: Date, end: Date)

  /** The Monday on or before day `n`, the first day of all being one. */
  function WeekStart(n: nat): (s: nat)
    requires n >= 1
    ensures 1 <= s <= n < s + 7
  {
    if n < 8 then 1 else WeekStart(n - 7) + 7
  }

  /** `today - timedelta(days=today.weekday())`. */
  lemma {:induction false} WeekStartIsMonday(n: nat)
    requires n >= 1
    ensures WeekStart(n) == n - (n + 6) % 7
  {
    if n >= 8 {
      WeekStartIsMonday(n - 7);
    }
  }

  lemma {:induction false} WeeksTile(m: nat, n: nat)
    requires m >= 1 && WeekStart(m) <= n < WeekStart(m) + 7
    ensures WeekStart(n) == WeekStart(m)
    ensures WeekStart(WeekStart(m) + 7) == WeekStart(m) + 7
  {
    if m >= 8 {
      WeeksTile(m - 7, n - 7);
    }
  }

  /** The period around a date, in dates. */
  function WindowOf(p: Period, today: Date): (w: Window)
    requires Proper(today)
    ensures Proper(w.start) && Proper(w.end)
  {
    match p
    case Daily => Window(today, NextDay(today))
    case Weekly => Window(Day(WeekStart(Ordinal(today))), Day(WeekStart(Ordinal(today)) + 7))
    case Monthly => Window(today.(d := 1), NextMonth(today))
  }

  predicate Covers(w: Window, x: Date) {
    !Before(x, w.start) && Before(x, w.end)
  }

  /** Covering, counted in days. */
  lemma {:induction false} CoversByDays(w: Window, x: Date)
    requires Proper(w.start) && Proper(w.end) && Proper(x)
    ensures Covers(w, x) <==> Ordinal(w.start) <= Ordinal(x) < Ordinal(w.end)
  {
    OrdinalOrders(x, w.start);
    OrdinalOrders(x, w.end);
  }

  /** A date is inside its own period, and every date inside has that same period. */
  lemma {:induction false} PeriodsPartition(p: Period, today: Date, x: Date)
    requires Proper(today) && Proper(x)
    ensures Covers(WindowOf(p, today), today)
    ensures Covers(WindowOf(p, today), x) <==> WindowOf(p, x) == WindowOf(p, today)
  {
    var w := WindowOf(p, today);
    OwnPeriod(p, today);
    OwnPeriod(p, x);
    if Covers(w, x) {
      SamePeriod(p, today, x);
    }
  }

  lemma {:induction false} OwnPeriod(p: Period, today: Date)
    requires Proper(today)
    ensures Covers(WindowOf(p, today), today)
  {
    CoversByDays(WindowOf(p, today), today);
    OrdinalSteps(today);
  }

  lemma {:induction false} SamePeriod(p: Period, today: Date, x: Date)
    requires Proper(today) && Proper(x) && Covers(WindowOf(p, today), x)
    ensures WindowOf(p, x) == WindowOf(p, today)
  {
    match p
    case Daily => SameDay(today, x);
    case Weekly => SameWeek(today, x);
    case Monthly =>
  }

  lemma {:induction false} SameDay(today: Date, x: Date)
    requires Proper(today) && Proper(x) && Covers(Window(today, NextDay(today)), x)
    ensures x == today
  {
  }

  lemma {:induction false} WeekByDays(today: Date, x: Date)
    requires Proper(today) && Proper(x)
    ensures Covers(WindowOf(Weekly, today), x) <==> WeekStart(Ordinal(today)) <= Ordinal(x) < WeekStart(Ordinal(today)) + 7
  {
    CoversByDays(WindowOf(Weekly, today), x);
  }

  lemma {:induction false} SameWeek(today: Date, x: Date)
    requires Proper(today) && Proper(x) && Covers(WindowOf(Weekly, today), x)
    ensures WeekStart(Ordinal(x)) == WeekStart(Ordinal(today))
  {
    WeekByDays(today, x);
    WeeksTile(Ordinal(today), Ordinal(x));
  }

  /** A day's period is that day, a month's the calendar month. */
  lemma {:induction false} DaysAndMonths(today: Date, x: Date)
    requires Proper(today) && Proper(x)
    ensures Covers(WindowOf(Daily, today), x) <==> x == today
    ensures Covers(WindowOf(Monthly, today), x) <==> x.y == today.y && x.m == today.m
  {
    if Covers(WindowOf(Daily, today), x) {
      SameDay(today, x);
    }
    OwnPeriod(Daily, today);
  }

  /** Where one period ends the next begins: across midnights, Mondays and the turn of the year. */
  lemma {:induction false} EndStartsNext(p: Period, today: Date)
    requires Proper(today)
    ensures WindowOf(p, WindowOf(p, today).end).start == WindowOf(p, today).end
  {
    if p == Weekly {
      WeekEndsOnMonday(today);
    }
  }

  lemma {:induction false} WeekEndsOnMonday(today: Date)
    requires Proper(today)
    ensures WindowOf(Weekly, WindowOf(Weekly, today).end).start == WindowOf(Weekly, today).end
  {
    var end := WindowOf(Weekly, today).end;
    var next := WindowOf(Weekly, end).start;
    assert Ordinal(end) == WeekStart(Ordinal(today)) + 7;
    WeeksTile(Ordinal(today), Ordinal(today));
    assert Ordinal(next) == WeekStart(Ordinal(end));
    OrdinalOrders(next, end);
  }

  // As strings.

  datatype Bounds = Bounds(start: string, end: string)

  function Stamp(a: Date, separator: char, t: Time): string
    requires Writable(a) && IsTime(t)
  {
    DateString(a) + ([separator] + TimeString(t))
  }

  /** `period_bounds`; nothing when the end is past the last year a date can have, where Python raises. */
  function PeriodBounds(p: Period, today: Date): Option<Bounds>
    requires Writable(today)
  {
    var w := WindowOf(p, today);
    StartIsNotAfter(p, today);
    if w.end.y > 9999 then None
    else Some(Bounds(Stamp(w.start, ' ', MIDNIGHT), Stamp(w.end, ' ', MIDNIGHT)))
  }

  lemma {:induction false} StartIsNotAfter(p: Period, today: Date)
    requires Writable(today)
    ensures Writable(WindowOf(p, today).start)
  {
    OwnPeriod(p, today);
  }

  const LAST_DAY := Date(9999, 12, 31)

  lemma {:induction false} PastTheLastDay(w: Window)
    requires Writable(w.start) && Proper(w.end)
    ensures w.end.y > 9999 <==> Covers(w, LAST_DAY)
  {
  }

  /** It raises exactly in the periods that hold the last day of year 9999. */
  lemma {:induction false} OverflowsIff(p: Period, today: Date)
    requires Writable(today)
    ensures PeriodBounds(p, today).None? <==> WindowOf(p, today) == WindowOf(p, LAST_DAY)
  {
    var w := WindowOf(p, today);
    StartIsNotAfter(p, today);
    PastTheLastDay(w);
    PeriodsPartition(p, today, LAST_DAY);
  }

  /** The raw comparison SQL makes on `started_at`. */
  predicate InBounds(stamp: string, b: Bounds) {
    AtLeast(stamp, b.start) && Below(stamp, b.end)
  }

  /** Against a midnight bound, a timestamp in either spelling compares like its date. */
  lemma {:induction false} MidnightDecidesByDate(x: Date, separator: char, t: Time, bound: Date)
    requires Writable(x) && Writable(bound) && IsTime(t) && separator in {'T', ' '}
    ensures Below(Stamp(x, separator, t), Stamp(bound, ' ', MIDNIGHT)) <==> Before(x, bound)
  {
    var rest, midnight := [separator] + TimeString(t), [' '] + TimeString(MIDNIGHT);
    DateStringsOrder(x, bound);
    if x == bound {
      BelowAfterPrefix(DateString(x), rest, midnight);
      MidnightIsFirst(t);
      if separator == ' ' {
        BelowAfterPrefix(" ", TimeString(t), TimeString(MIDNIGHT));
      }
    } else {
      BelowByPrefix(DateString(x), DateString(bound), rest, midnight);
    }
  }

  /** Every session timestamp falls in its own date's period and in no other. */
  lemma {:induction false} TimestampInExactlyItsPeriod(p: Period, today: Date, x: Date, separator: char, t: Time)
    requires Writable(today) && Writable(x) && IsTime(t) && separator in {'T', ' '}
    requires PeriodBounds(p, today).Some?
    ensures InBounds(Stamp(x, separator, t), PeriodBounds(p, today).value) <==> WindowOf(p, x) == WindowOf(p, today)
  {
    var w := WindowOf(p, today);
    StartIsNotAfter(p, today);
    PeriodsPartition(p, today, x);
    MidnightDecidesByDate(x, separator, t, w.start);
    MidnightDecidesByDate(x, separator, t, w.end);
  }

  /** The bounds of adjoining periods meet as strings. */
  lemma {:induction false} BoundsMeet(p: Period, today: Date)
    requires Writable(today) && PeriodBounds(p, today).Some?
    requires PeriodBounds(p, WindowOf(p, today).end).Some?
    ensures PeriodBounds(p, WindowOf(p, today).end).value.start == PeriodBounds(p, today).value.end
  {
    EndStartsNext(p, today);
  }

  /** A midnight names its day. */
  lemma {:induction false} MidnightsNameDays(a: Date, b: Date)
    requires Writable(a) && Writable(b)
    ensures Stamp(a, ' ', MIDNIGHT) == Stamp(b, ' ', MIDNIGHT) <==> a == b
  {
    var midnight := [' '] + TimeString(MIDNIGHT);
    DateStringsOrder(a, b);
    if DateString(a) + midnight == DateString(b) + midnight {
      assert DateString(a) == (DateString(a) + midnight)[..10] == DateString(b);
    }
  }

  /** The start string names the period: two dates share it exactly when they share their period. */
  lemma {:induction false} StartNamesPeriod(p: Period, a: Date, b: Date)
    requires Writable(a) && Writable(b) && PeriodBounds(p, a).Some? && PeriodBounds(p, b).Some?
    ensures PeriodBounds(p, a).value.start == PeriodBounds(p, b).value.start <==> WindowOf(p, a) == WindowOf(p, b)
  {
    StartIsNotAfter(p, a);
    StartIsNotAfter(p, b);
    MidnightsNameDays(WindowOf(p, a).start, WindowOf(p, b).start);
    StartHasOwnPeriod(p, a);
    StartHasOwnPeriod(p, b);
  }

  lemma {:induction false} StartHasOwnPeriod(p: Period, today: Date)
    requires Proper(today)
    ensures WindowOf(p, WindowOf(p, today).start) == WindowOf(p, today)
  {
    var w := WindowOf(p, today);
    OwnPeriod(p, today);
    PeriodsPartition(p, today, w.start);
  }

  // Spend.

  datatype Money = Money(date: Date, separator: char, time: Time, cost: real)

  predicate IsDated(c: Money) {
    Writable(c.date) && IsTime(c.time) && c.separator in {'T', ' '}
  }

  /** A session's cost, or its share of a project, dated by when the session started. */
  type Charge = c: Money | IsDated(c) witness Money(Date(1, 1, 1), ' ', MIDNIGHT, 0.0)

  /** The sum `_spend_for` selects. */
  function Spend(charges: seq<Charge>, b: Bounds): real
  {
    if charges == [] then 0.0
    else
      var last := charges[|charges| - 1];
      Spend(charges[..|charges| - 1], b) + (if InBounds(Stamp(last.date, last.separator, last.time), b) then last.cost else 0.0)
  }

  /** The spend of the charges whose own period this is. */
  function SpendOf(charges: seq<Charge>, p: Period, w: Window): real
  {
    if charges == [] then 0.0
    else
      var last := charges[|charges| - 1];
      SpendOf(charges[..|charges| - 1], p, w) + (if WindowOf(p, last.date) == w then last.cost else 0.0)
  }

  /** A period's spend is the spend of exactly the sessions that started in it, so every charge is counted once. */
  lemma {:induction false} SpendCountsEachOnce(charges: seq<Charge>, p: Period, today: Date)
    requires Writable(today) && PeriodBounds(p, today).Some?
    ensures Spend(charges, PeriodBounds(p, today).value) == SpendOf(charges, p, WindowOf(p, today))
  {
    if charges != [] {
      var last := charges[|charges| - 1];
      SpendCountsEachOnce(charges[..|charges| - 1], p, today);
      TimestampInExactlyItsPeriod(p, today, last.date, last.separator, last.time);
    }
  }
}
