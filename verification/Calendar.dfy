/** The proleptic Gregorian calendar that every date computation in the scheduler rests on.
    Days are counted from 0 = Monday, 1 January of year 1. */
module Calendar {

  datatype Date = Date(year: int, month: int, day: int)

  predicate Leap(y: int) {
    y % 4 == 0 && (y % 100 != 0 || y % 400 == 0)
  }

  function DaysInYear(y: int): int {
    if Leap(y) then 366 else 365
  }

  /** Days of month `m` in a year that is or is not a leap year. */
  function MonthLength(leap: bool, m: int): int {
    if m == 2 then (if leap then 29 else 28)
    else if m == 4 || m == 6 || m == 9 || m == 11 then 30
    else 31
  }

  /** Days of the year before month `m`; month 13 stands for the end of the year. */
  function DaysBeforeMonth(leap: bool, m: int): int
    requires 1 <= m <= 13
  {
    var extra := if leap then 1 else 0;
    if m == 1 then 0
    else if m == 2 then 31
    else if m == 3 then 59 + extra
    else if m == 4 then 90 + extra
    else if m == 5 then 120 + extra
    else if m == 6 then 151 + extra
    else if m == 7 then 181 + extra
    else if m == 8 then 212 + extra
    else if m == 9 then 243 + extra
    else if m == 10 then 273 + extra
    else if m == 11 then 304 + extra
    else if m == 12 then 334 + extra
    else 365 + extra
  }

  /** Days before 1 January of year `y`. */
  function DaysBeforeYear(y: int): int {
    var p := y - 1;
    365 * p + p / 4 - p / 100 + p / 400
  }

  predicate ValidDate(d: Date) {
    1 <= d.month <= 12 && 1 <= d.day <= MonthLength(Leap(d.year), d.month)
  }

  /** The day number of a date. */
  function DayOf(d: Date): int
    requires 1 <= d.month <= 12
  {
    DaysBeforeYear(d.year) + DaysBeforeMonth(Leap(d.year), d.month) + d.day - 1
  }

  /** The next day, carrying into the month and the year. */
  function NextDay(d: Date): Date {
    if d.day < MonthLength(Leap(d.year), d.month) then d.(day := d.day + 1)
    else if d.month < 12 then Date(d.year, d.month + 1, 1)
    else Date(d.year + 1, 1, 1)
  }

  /** The date of day `n`, counted off from the first day of year 1. */
  function DateOf(n: nat): (d: Date)
    ensures ValidDate(d) && d.year >= 1
  {
    if n == 0 then Date(1, 1, 1) else NextDay(DateOf(n - 1))
  }

  lemma NextDayCounts(d: Date)
    requires ValidDate(d)
    ensures DayOf(NextDay(d)) == DayOf(d) + 1
  {
    if d.day == MonthLength(Leap(d.year), d.month) && d.month == 12 { YearStep(d.year); }
    hide DaysBeforeYear, Leap;
  }

  /** Counting days off and numbering them by the closed form agree. */
  lemma {:induction false} DayOfDate(n: nat)
    ensures DayOf(DateOf(n)) == n
  {
    if n > 0 {
      DayOfDate(n - 1);
      NextDayCounts(DateOf(n - 1));
      hide DayOf, NextDay;
    } else {
      assert DaysBeforeYear(1) == 0;
    }
  }

  /** Monday is 0, as `datetime.weekday` has it. */
  function Weekday(n: nat): int {
    n % 7
  }

  lemma YearStep(y: int)
    ensures DaysBeforeYear(y + 1) == DaysBeforeYear(y) + DaysInYear(y)
  {
    Carry(y, 4); Carry(y, 100); Carry(y, 400);
    Divides(y, 4, 25);
    Divides(y, 100, 4);
  }

  /** A multiple of `j * k` is a multiple of `j`. */
  lemma Divides(y: int, j: int, k: int)
    requires (j == 4 && k == 25) || (j == 100 && k == 4)
    ensures y % (j * k) == 0 ==> y % j == 0
  {
    if y % (j * k) == 0 {
      if j == 4 {
        assert y == 4 * (25 * (y / 100));
      } else {
        assert y == 100 * (4 * (y / 400));
      }
    }
  }

  lemma Carry(y: int, k: int)
    requires k == 4 || k == 100 || k == 400
    ensures y / k == (y - 1) / k + (if y % k == 0 then 1 else 0)
  {}

  lemma {:induction false} YearsGrow(y: int, z: int)
    requires y < z
    ensures DaysBeforeYear(y + 1) <= DaysBeforeYear(z)
    decreases z - y
  {
    if y + 1 < z {
      YearsGrow(y + 1, z);
      YearStep(y + 1);
    }
  }

  predicate Before(a: Date, b: Date) {
    a.year < b.year || (a.year == b.year && (a.month < b.month || (a.month == b.month && a.day < b.day)))
  }

  /** Calendar order is day order. */
  lemma DateOrder(a: Date, b: Date)
    requires ValidDate(a) && ValidDate(b)
    ensures Before(a, b) <==> DayOf(a) < DayOf(b)
    ensures DayOf(a) == DayOf(b) ==> a == b
  {
    WithinYear(a); WithinYear(b);
    if a.year < b.year {
      YearsGrow(a.year, b.year);
    } else if b.year < a.year {
      YearsGrow(b.year, a.year);
    } else {
      if a.month < b.month {
        MonthOrder(a, b);
      } else if b.month < a.month {
        MonthOrder(b, a);
      }
    }
  }

  lemma WithinYear(a: Date)
    requires ValidDate(a)
    ensures DaysBeforeYear(a.year) <= DayOf(a) < DaysBeforeYear(a.year + 1)
  {
    YearStep(a.year);
  }

  lemma MonthOrder(a: Date, b: Date)
    requires ValidDate(a) && ValidDate(b) && a.year == b.year && a.month < b.month
    ensures DayOf(a) < DayOf(b)
  {
    var leap := Leap(a.year);
    assert DaysBeforeMonth(leap, a.month + 1) == DaysBeforeMonth(leap, a.month) + MonthLength(leap, a.month);
    assert DaysBeforeMonth(leap, a.month + 1) <= DaysBeforeMonth(leap, b.month);
  }

  lemma YearIsPositive(d: Date)
    requires ValidDate(d) && d.year >= 1
    ensures DayOf(d) >= 0
  {
    WithinYear(d);
    if d.year > 1 { YearsGrow(1, d.year); }
  }

  /** `DateOf` and `DayOf` are inverse to each other. */
  lemma DateRoundTrip(d: Date)
    requires ValidDate(d) && DayOf(d) >= 0
    ensures DateOf(DayOf(d)) == d
  {
    DayOfDate(DayOf(d));
    DateOrder(DateOf(DayOf(d)), d);
  }

  /** The calendar repeats every 400 years, weekdays included. */
  const CYCLE: nat := 146_097

  lemma DateCycle(n: nat)
    ensures DateOf(n + CYCLE) == DateOf(n).(year := DateOf(n).year + 400)
    ensures Weekday(n + CYCLE) == Weekday(n)
  {
    hide DateOf, DaysBeforeYear, Leap;
    var d := DateOf(n);
    var later := d.(year := d.year + 400);
    DayOfDate(n);
    YearCycle(d.year);
    DateRoundTrip(later);
  }

  lemma YearCycle(y: int)
    ensures Leap(y + 400) == Leap(y) && DaysBeforeYear(y + 400) == DaysBeforeYear(y) + CYCLE
  {
    var p := y - 1;
    assert (p + 400) / 4 == p / 4 + 100 && (p + 400) / 100 == p / 100 + 4 && (p + 400) / 400 == p / 400 + 1;
  }
}
