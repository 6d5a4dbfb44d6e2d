/** The build script's conversion of a day count since 1970-01-01 to a Gregorian date. */
module Calendar {

  datatype Date = Date(year: nat, month: nat, day: nat)

  predicate IsLeap(y: nat) {
    (y % 4 == 0 && y % 100 != 0) || y % 400 == 0
  }

  function DaysInYear(y: nat): nat { if IsLeap(y) then 366 else 365 }

  function Months(y: nat): seq<nat> {
    [31, if IsLeap(y) then 29 else 28, 31, 30, 31, 30, 31, 31, 30, 31, 30, 31]
  }

  predicate Valid(d: Date) {
    d.year >= 1970 && 1 <= d.month <= 12 && 1 <= d.day <= Months(d.year)[d.month - 1]
  }

  /** How long a month is: April, June, September and November have 30 days, February 28 or 29. */
  function MonthLength(y: nat, m: nat): nat {
    if m == 4 || m == 6 || m == 9 || m == 11 then 30
    else if m == 2 then if y % 400 == 0 || (y % 4 == 0 && y % 100 != 0) then 29 else 28
    else 31
  }

  lemma MonthsAre(y: nat)
    ensures |Months(y)| == 12 && forall m :: 1 <= m <= 12 ==> Months(y)[m - 1] == MonthLength(y, m)
  {
  }

  /** A day of the calendar since 1970. */
  predicate RealDate(d: Date) {
    d.year >= 1970 && 1 <= d.month <= 12 && 1 <= d.day <= MonthLength(d.year, d.month)
  }

  lemma ValidMeans(d: Date)
    ensures Valid(d) <==> RealDate(d)
  {
    if 1 <= d.month <= 12 {
      MonthsAre(d.year);
    }
  }

  // ── The closed form ─────────────────────────────────────────────

  /** Leap years up to and including `y`. */
  function LeapsUpTo(y: nat): int { y / 4 - y / 100 + y / 400 }

  /** Days from 1970-01-01 to the first day of year `y`. */
  function DaysBeforeYear(y: nat): int
    requires y >= 1
  {
    365 * (y - 1970) + LeapsUpTo(y - 1) - LeapsUpTo(1969)
  }

  /** Days from the first day of a year to the first day of its month `m + 1`. */
  function DaysBeforeMonth(y: nat, m: nat): nat
    requires m <= 12
  {
    if m == 0 then 0 else DaysBeforeMonth(y, m - 1) + Months(y)[m - 1]
  }

  function DayNumber(d: Date): int
    requires Valid(d)
  {
    DaysBeforeYear(d.year) + DaysBeforeMonth(d.year, d.month - 1) + d.day - 1
  }

  lemma QuotientStep(y: nat, k: nat)
    requires y >= 1 && (k == 4 || k == 100 || k == 400)
    ensures y / k == (y - 1) / k + if y % k == 0 then 1 else 0
  {
  }

  /** The closed form grows by the length of each year. */
  lemma YearStep(y: nat)
    requires y >= 1
    ensures DaysBeforeYear(y + 1) == DaysBeforeYear(y) + DaysInYear(y)
  {
    LeapStep(y);
  }

  lemma LeapStep(y: nat)
    requires y >= 1
    ensures LeapsUpTo(y) == LeapsUpTo(y - 1) + if IsLeap(y) then 1 else 0
  {
    QuotientStep(y, 4);
    QuotientStep(y, 100);
    QuotientStep(y, 400);
    Divisibility(y);
  }

  lemma Divisibility(y: nat)
    ensures (y % 400 == 0 ==> y % 100 == 0) && (y % 100 == 0 ==> y % 4 == 0)
  {
    if y % 400 == 0 {
      assert y == 100 * (4 * (y / 400));
    }
    if y % 100 == 0 {
      assert y == 4 * (25 * (y / 100));
    }
  }

  lemma MonthsSum(y: nat)
    ensures DaysBeforeMonth(y, 12) == DaysInYear(y)
  {
    var feb := if IsLeap(y) then 29 else 28;
    assert DaysBeforeMonth(y, 1) == 31;
    assert DaysBeforeMonth(y, 3) == 62 + feb;
    assert DaysBeforeMonth(y, 5) == 123 + feb;
    assert DaysBeforeMonth(y, 7) == 184 + feb;
    assert DaysBeforeMonth(y, 9) == 245 + feb;
    assert DaysBeforeMonth(y, 11) == 306 + feb;
  }

  // ── The loops ───────────────────────────────────────────────────

  /** Subtracts whole years, then whole months; the result is the one valid date with that day number. */
  method DaysToDate(days: nat) returns (d: Date)
    ensures RealDate(d) && Valid(d) && DayNumber(d) == days
    ensures forall e :: RealDate(e) && Valid(e) && DayNumber(e) == days ==> e == d
  {
    var y: nat := 1970;
    var remaining: nat := days;
    while remaining >= (if IsLeap(y) then 366 else 365)
      invariant y >= 1970
      invariant DaysBeforeYear(y) + remaining == days
      decreases remaining
    {
      YearStep(y);
      remaining := remaining - if IsLeap(y) then 366 else 365;
      y := y + 1;
    }
    var months := Months(y);
    MonthsSum(y);
    ghost var inYear := remaining;
    var m := 1;
    while m <= 12 && remaining >= months[m - 1]
      invariant 1 <= m <= 13
      invariant DaysBeforeMonth(y, m - 1) + remaining == inYear
      decreases 13 - m
    {
      remaining := remaining - months[m - 1];
      m := m + 1;
    }
    d := Date(y, m, remaining + 1);
    ValidMeans(d);
    forall e | Valid(e) && DayNumber(e) == days ensures e == d {
      DayNumberOrders(d, e);
    }
  }

  // ── Order, uniqueness ───────────────────────────────────────────

  predicate Earlier(a: Date, b: Date) {
    || a.year < b.year
    || (a.year == b.year && (a.month < b.month || (a.month == b.month && a.day < b.day)))
  }

  lemma {:induction false} MonthsGrow(y: nat, m: nat, n: nat)
    requires m <= n <= 12
    ensures DaysBeforeMonth(y, m) <= DaysBeforeMonth(y, n)
    decreases n
  {
    if m < n {
      MonthsGrow(y, m, n - 1);
    }
  }

  lemma WithinYear(d: Date)
    requires Valid(d)
    ensures DaysBeforeYear(d.year) <= DayNumber(d) < DaysBeforeYear(d.year + 1)
  {
    MonthsGrow(d.year, d.month, 12);
    MonthsSum(d.year);
    YearStep(d.year);
  }

  /** Day numbers order dates exactly as the calendar does, so each number names one date. */
  lemma DayNumberOrders(a: Date, b: Date)
    requires Valid(a) && Valid(b)
    ensures DayNumber(a) < DayNumber(b) <==> Earlier(a, b)
    ensures DayNumber(a) == DayNumber(b) <==> a == b
  {
    OrderedOneWay(a, b);
    OrderedOneWay(b, a);
  }

  lemma OrderedOneWay(a: Date, b: Date)
    requires Valid(a) && Valid(b)
    ensures Earlier(a, b) ==> DayNumber(a) < DayNumber(b)
  {
    WithinYear(a);
    WithinYear(b);
    if a.year == b.year && a.month < b.month {
      MonthsGrow(a.year, a.month, b.month - 1);
    }
  }

  /** The calendar's next day. */
  function Tomorrow(d: Date): Date {
    if d.day < MonthLength(d.year, d.month) then d.(day := d.day + 1)
    else if d.month < 12 then Date(d.year, d.month + 1, 1)
    else Date(d.year + 1, 1, 1)
  }

  /** Day numbers count the days from 1970-01-01 one by one, so no date is missed. */
  lemma TomorrowIsNext(d: Date)
    requires RealDate(d)
    ensures Valid(d) && RealDate(Tomorrow(d)) && Valid(Tomorrow(d)) && DayNumber(Tomorrow(d)) == DayNumber(d) + 1
    ensures DayNumber(d) >= 0 && (DayNumber(d) == 0 <==> d == Date(1970, 1, 1))
  {
    ValidMeans(d);
    ValidMeans(Tomorrow(d));
    MonthsAre(d.year);
    YearStep(d.year);
    MonthsSum(d.year);
    DayNumberOrders(Date(1970, 1, 1), d);
  }
}
