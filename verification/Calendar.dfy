/** The proleptic Gregorian calendar as Python's `date` counts it, and dates and times written as ISO strings. */
module Calendar {
  import opened Text
  import opened Timestamps

  datatype Date = Date(y: int, m: int, d: int)

  predicate IsLeap(y: int) {
    y % 4 == 0 && (y % 100 != 0 || y % 400 == 0)
  }

  function DaysIn(y: int, m: int): int {
    if m == 2 then (if IsLeap(y) then 29 else 28)
    else if m in {4, 6, 9, 11} then 30
    else 31
  }

  /** A real date; years past 9999 exist here so that overflow can be seen. */
  predicate Proper(a: Date) {
    1 <= a.y && 1 <= a.m <= 12 && 1 <= a.d <= DaysIn(a.y, a.m)
  }

  predicate Before(a: Date, b: Date) {
    a.y < b.y || (a.y == b.y && (a.m < b.m || (a.m == b.m && a.d < b.d)))
  }

  function NextDay(a: Date): (b: Date)
    requires Proper(a)
    ensures Proper(b)
  {
    if a.d < DaysIn(a.y, a.m) then Date(a.y, a.m, a.d + 1) else NextMonth(a)
  }

  /** The first of the following month, December wrapping into the next year. */
  function NextMonth(a: Date): (b: Date)
    requires Proper(a)
    ensures Proper(b)
  {
    if a.m == 12 then Date(a.y + 1, 1, 1) else Date(a.y, a.m + 1, 1)
  }

  const FIRST_DAY := Date(1, 1, 1)

  function PreviousDay(a: Date): (b: Date)
    requires Proper(a) && a != FIRST_DAY
    ensures Proper(b) && NextDay(b) == a
  {
    if a.d > 1 then Date(a.y, a.m, a.d - 1)
    else if a.m > 1 then Date(a.y, a.m - 1, DaysIn(a.y, a.m - 1))
    else Date(a.y - 1, 12, 31)
  }

  /** `date.toordinal()`: the number of days counted from the first day of year one. */
  function Ordinal(a: Date): nat
    requires Proper(a)
    decreases a.y, a.m, a.d
  {
    if a == FIRST_DAY then 1 else Ordinal(PreviousDay(a)) + 1
  }

  lemma {:induction false} OrdinalSteps(a: Date)
    requires Proper(a)
    ensures Ordinal(NextDay(a)) == Ordinal(a) + 1
  {
    assert PreviousDay(NextDay(a)) == a;
  }

  lemma {:induction false} BeforeIsSmaller(a: Date, b: Date)
    requires Proper(a) && Proper(b) && Before(a, b)
    ensures Ordinal(a) < Ordinal(b)
    decreases b.y, b.m, b.d
  {
    var c := PreviousDay(b);
    if a != c {
      assert Before(a, c);
      BeforeIsSmaller(a, c);
    }
  }

  /** Earlier dates have smaller ordinals, and only they do; equal ordinals are equal dates. */
  lemma {:induction false} OrdinalOrders(a: Date, b: Date)
    requires Proper(a) && Proper(b)
    ensures Before(a, b) <==> Ordinal(a) < Ordinal(b)
    ensures a == b <==> Ordinal(a) == Ordinal(b)
  {
    if Before(a, b) {
      BeforeIsSmaller(a, b);
    } else if Before(b, a) {
      BeforeIsSmaller(b, a);
    }
  }

  function DaysBeforeYear(y: int): int {
    (y - 1) * 365 + (y - 1) / 4 - (y - 1) / 100 + (y - 1) / 400
  }

  function DaysBeforeMonth(y: int, m: int): int
    decreases m
  {
    if m <= 1 then 0 else DaysBeforeMonth(y, m - 1) + DaysIn(y, m - 1)
  }

  function ClosedForm(a: Date): int {
    DaysBeforeYear(a.y) + DaysBeforeMonth(a.y, a.m) + a.d
  }

  lemma {:induction false} YearsAddUp(y: int)
    requires y >= 1
    ensures DaysBeforeYear(y + 1) == DaysBeforeYear(y) + if IsLeap(y) then 366 else 365
  {
    FourthYears(y);
    Centuries(y);
    FourthCenturies(y);
  }

  lemma {:induction false} FourthYears(y: int)
    ensures y / 4 == (y - 1) / 4 + if y % 4 == 0 then 1 else 0
  {
  }

  lemma {:induction false} Centuries(y: int)
    ensures y / 100 == (y - 1) / 100 + if y % 100 == 0 then 1 else 0
    ensures y % 100 == 0 ==> y % 4 == 0
  {
    assert y % 100 == 0 ==> y == 4 * (25 * (y / 100));
  }

  lemma {:induction false} FourthCenturies(y: int)
    ensures y / 400 == (y - 1) / 400 + if y % 400 == 0 then 1 else 0
    ensures y % 400 == 0 ==> y % 100 == 0
  {
    assert y % 400 == 0 ==> y == 100 * (4 * (y / 400));
  }

  lemma {:induction false} MonthsAddUp(y: int)
    ensures DaysBeforeMonth(y, 12) == if IsLeap(y) then 335 else 334
  {
  }

  /** The closed form: leap years by the Gregorian rule. */
  lemma {:induction false} OrdinalInClosedForm(a: Date)
    requires Proper(a)
    ensures Ordinal(a) == ClosedForm(a)
    decreases a.y, a.m, a.d
  {
    if a != FIRST_DAY {
      var before := PreviousDay(a);
      OrdinalInClosedForm(before);
      ClosedFormSteps(a, before);
    }
  }

  lemma {:induction false} ClosedFormSteps(a: Date, before: Date)
    requires Proper(a) && a != FIRST_DAY && before == PreviousDay(a)
    ensures ClosedForm(a) == ClosedForm(before) + 1
  {
    if a.d == 1 && a.m == 1 {
      NewYearStep(a.y);
    }
  }

  lemma {:induction false} NewYearStep(y: int)
    requires y > 1
    ensures ClosedForm(Date(y, 1, 1)) == ClosedForm(Date(y - 1, 12, 31)) + 1
  {
    MonthsAddUp(y - 1);
    YearsAddUp(y - 1);
    assert DaysBeforeYear(y) == DaysBeforeYear(y - 1) + if IsLeap(y - 1) then 366 else 365;
    assert DaysBeforeMonth(y, 1) == 0;
  }

  /** `date.fromordinal(n)`. */
  function Day(n: nat): (a: Date)
    requires n >= 1
    ensures Proper(a) && Ordinal(a) == n
  {
    if n == 1 then FIRST_DAY
    else
      var before := Day(n - 1);
      OrdinalSteps(before);
      NextDay(before)
  }

  // Strings.

  function Two(n: int): (s: string)
    requires 0 <= n < 100
    ensures |s| == 2
  {
    [Digit(n / 10), Digit(n % 10)]
  }

  predicate Writable(a: Date) {
    Proper(a) && a.y <= 9999
  }

  /** `date.isoformat()`. */
  function DateString(a: Date): (s: string)
    requires Writable(a)
    ensures |s| == 10
  {
    Two(a.y / 100) + Two(a.y % 100) + "-" + Two(a.m) + "-" + Two(a.d)
  }

  datatype Time = Time(h: int, min: int, sec: int)

  predicate IsTime(t: Time) {
    0 <= t.h < 24 && 0 <= t.min < 60 && 0 <= t.sec < 60
  }

  function TimeString(t: Time): (s: string)
    requires IsTime(t)
    ensures |s| == 8
  {
    Two(t.h) + ":" + Two(t.min) + ":" + Two(t.sec)
  }

  const MIDNIGHT := Time(0, 0, 0)

  lemma {:induction false} TwoOrders(m: int, n: int)
    requires 0 <= m < 100 && 0 <= n < 100
    ensures Below(Two(m), Two(n)) <==> m < n
    ensures Two(m) == Two(n) <==> m == n
  {
    var s, t := Two(m), Two(n);
    assert s[0] < t[0] <==> m / 10 < n / 10;
    assert s[0] == t[0] <==> m / 10 == n / 10;
    assert s[1] < t[1] <==> m % 10 < n % 10;
    OneCharacter(s[1..], t[1..]);
    assert Below(s, t) <==> s[0] < t[0] || (s[0] == t[0] && Below(s[1..], t[1..]));
    assert m == 10 * (m / 10) + m % 10 && n == 10 * (n / 10) + n % 10;
  }

  lemma {:induction false} OneCharacter(s: string, t: string)
    requires |s| == |t| == 1
    ensures Below(s, t) <==> s[0] < t[0]
  {
  }

  /** Two fields of fixed width compare like the pair of numbers. */
  lemma {:induction false} FieldsOrder(m: int, n: int, s: string, t: string)
    requires 0 <= m < 100 && 0 <= n < 100
    ensures Below(Two(m) + s, Two(n) + t) <==> m < n || (m == n && Below(s, t))
    ensures Two(m) + s == Two(n) + t <==> m == n && s == t
  {
  }

  /** Dates compare as strings exactly as they compare as dates. */
  lemma {:induction false} DateStringsOrder(a: Date, b: Date)
    requires Writable(a) && Writable(b)
    ensures Below(DateString(a), DateString(b)) <==> Before(a, b)
    ensures DateString(a) == DateString(b) <==> a == b
  {
    var ma, mb := MonthDay(a), MonthDay(b);
    MonthDaysOrder(a, b);
    BelowAfterPrefix("-", ma, mb);
    DashKeeps(ma, mb);
    var ya, yb := Two(a.y % 100) + ("-" + ma), Two(b.y % 100) + ("-" + mb);
    FieldsOrder(a.y % 100, b.y % 100, "-" + ma, "-" + mb);
    FieldsOrder(a.y / 100, b.y / 100, ya, yb);
    assert DateString(a) == Two(a.y / 100) + ya && DateString(b) == Two(b.y / 100) + yb;
  }

  function MonthDay(a: Date): string
    requires Writable(a)
  {
    Two(a.m) + ("-" + Two(a.d))
  }

  lemma {:induction false} MonthDaysOrder(a: Date, b: Date)
    requires Writable(a) && Writable(b)
    ensures Below(MonthDay(a), MonthDay(b)) <==> a.m < b.m || (a.m == b.m && a.d < b.d)
    ensures MonthDay(a) == MonthDay(b) <==> a.m == b.m && a.d == b.d
  {
    TwoOrders(a.d, b.d);
    BelowAfterPrefix("-", Two(a.d), Two(b.d));
    DashKeeps(Two(a.d), Two(b.d));
    FieldsOrder(a.m, b.m, "-" + Two(a.d), "-" + Two(b.d));
  }

  lemma {:induction false} DashKeeps(s: string, t: string)
    ensures "-" + s == "-" + t <==> s == t
  {
    assert ("-" + s)[1..] == s && ("-" + t)[1..] == t;
  }

  lemma {:induction false} NoSmallerCharacter(s: string, t: string)
    requires |s| == |t| && forall i | 0 <= i < |s| :: s[i] >= t[i]
    ensures !Below(s, t)
  {
    if s != "" {
      NoSmallerCharacter(s[1..], t[1..]);
    }
  }

  /** No time of day sorts before midnight. */
  lemma {:induction false} MidnightIsFirst(t: Time)
    requires IsTime(t)
    ensures !Below(TimeString(t), TimeString(MIDNIGHT))
  {
    var s, z := TimeString(t), TimeString(MIDNIGHT);
    forall i | 0 <= i < 8
      ensures s[i] >= z[i]
    {
      TimeDigits(t, i);
      TimeDigits(MIDNIGHT, i);
    }
    NoSmallerCharacter(s, z);
  }

  lemma {:induction false} TimeDigits(t: Time, i: nat)
    requires IsTime(t) && i < 8
    ensures if i in {2, 5} then TimeString(t)[i] == ':' else TimeString(t)[i] >= '0'
    ensures t == MIDNIGHT && i !in {2, 5} ==> TimeString(t)[i] == '0'
  {
  }
}
