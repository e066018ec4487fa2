/** When the 366-day bound of the cron search suffices, for expressions with any weekday field. */
module CronCoverage {
  import opened Calendar
  import opened IsoTime
  import opened Cron

  /** The day and weekday fields admit this day. */
  predicate Admits(e: Expression, n: nat) {
    DateOf(n).day in e.days && DateOf(n).month in e.months && Weekday(n) in e.weekdays
  }

  /** One of the 366 days from day `n` on is admitted. */
  predicate Covered(e: Expression, n: nat) {
    exists d: nat :: n <= d < n + 366 && Admits(e, d)
  }

  /** One calendar cycle's worth of windows is covered: a check of finitely many days. */
  predicate Covers(e: Expression) {
    forall n: nat :: n < CYCLE ==> Covered(e, n)
  }

  lemma CoveredCycle(e: Expression, n: nat)
    ensures Covered(e, n + CYCLE) <==> Covered(e, n)
  {
    hide DateOf, Admits;
    if Covered(e, n) {
      var d: nat :| n <= d < n + 366 && Admits(e, d);
      AdmitsCycle(e, d);
      assert n + CYCLE <= d + CYCLE < n + CYCLE + 366;
    }
    if Covered(e, n + CYCLE) {
      var d: nat :| n + CYCLE <= d < n + CYCLE + 366 && Admits(e, d);
      AdmitsCycle(e, d - CYCLE);
      assert n <= d - CYCLE < n + 366;
    }
  }

  lemma AdmitsCycle(e: Expression, n: nat)
    ensures Admits(e, n + CYCLE) <==> Admits(e, n)
  {
    hide DateOf;
    DateCycle(n);
  }

  lemma {:induction false} AlwaysCovered(e: Expression, n: nat)
    requires Covers(e)
    ensures Covered(e, n)
  {
    hide Covered;
    if n >= CYCLE {
      AlwaysCovered(e, n - CYCLE);
      CoveredCycle(e, n - CYCLE);
    }
  }

  /** A minute of an admitted day that the other two fields admit. */
  lemma MatchOfDay(e: Expression, n: nat, h: nat, mi: nat)
    requires WellFormed(e) && Admits(e, n) && h in e.hours && mi in e.minutes
    ensures 60 * h + mi < 1440 && Hit(e)(1440 * n + 60 * h + mi)
  {
    hide DateOf;
    MinuteParts(n, h, mi);
  }

  /** The first match of day `n + 366` or an earlier one, or the last of day `n`, is in the window. */
  lemma SearchCovered(e: Expression, from: nat)
    requires WellFormed(e) && Covers(e)
    ensures NextMatch(e, from).Some?
  {
    hide Admits, Covers, Matches, DateOf;
    var n := from / 1440;
    var h: int :| h in e.hours;
    var mi: int :| mi in e.minutes;
    AlwaysCovered(e, n);
    AlwaysCovered(e, n + 1);
    var d: nat :| n + 1 <= d < n + 1 + 366 && Admits(e, d);
    MatchOfDay(e, d, h, mi);
    var c: nat :| n <= c < n + 366 && Admits(e, c);
    MatchOfDay(e, c, h, mi);
    var later := 1440 * d + 60 * h + mi;
    if later < from + SEARCH_LIMIT {
      MatchInWindow(e, from, later);
    } else {
      MatchInWindow(e, from, 1440 * c + 60 * h + mi);
    }
  }

  /** From every start minute the search finds a match iff every 366 days in a row, over one cycle of 400
      years, hold a day that the expression admits. */
  lemma SearchSucceedsIff(e: Expression)
    requires WellFormed(e)
    ensures (forall from: nat :: NextMatch(e, from).Some?) <==> Covers(e)
  {
    hide DateOf;
    if Covers(e) {
      forall from: nat
        ensures NextMatch(e, from).Some?
      {
        SearchCovered(e, from);
      }
    }
    if n: nat :| n < CYCLE && !Covered(e, n) {
      UncoveredFails(e, n);
    }
  }

  lemma HitAdmits(e: Expression, m: nat)
    ensures Hit(e)(m) ==> Admits(e, m / 1440)
  {
    hide DateOf;
  }

  /** From the first minute of 366 days without an admitted one the search fails. */
  lemma UncoveredFails(e: Expression, n: nat)
    requires !Covered(e, n)
    ensures NextMatch(e, 1440 * n).None?
  {
    hide DateOf;
    forall m: nat | 1440 * n <= m < 1440 * n + SEARCH_LIMIT
      ensures !Hit(e)(m)
    {
      HitAdmits(e, m);
    }
    NextMatchIsLeast(e, 1440 * n);
  }

  // ---------------------------------------------------------------- Friday the 13th

  /** 14 August 1999, the day after a Friday the 13th; the next one is 427 days after that. */
  const AFTER_AUGUST_1999: nat := 729_979

  predicate OnlyFriday13(e: Expression) {
    e.days <= {13} && e.weekdays <= {4}
  }

  /** No month from September 1999 to August 2000 has a Friday the 13th. */
  lemma ThirteenthOf(before: int, leap: bool, month: int, n: nat)
    requires 1 <= month <= 12 && n == before + DaysBeforeMonth(leap, month) + 12
    requires (before == 729_754 && !leap && month >= 9) || (before == 730_119 && leap && month <= 8)
    ensures n % 7 != 4
  {}

  lemma NoFriday13(n: nat)
    requires AFTER_AUGUST_1999 <= n < AFTER_AUGUST_1999 + 366
    ensures !(DateOf(n).day == 13 && Weekday(n) == 4)
  {
    hide DateOf;
    var d := DateOf(n);
    DayOfDate(n);
    if d.day == 13 {
      YearOfWindow(n);
      ThirteenthOf(DaysBeforeYear(d.year), Leap(d.year), d.month, n);
    }
  }

  lemma YearOfWindow(n: nat)
    requires AFTER_AUGUST_1999 <= n < AFTER_AUGUST_1999 + 366 && DateOf(n).day == 13
    ensures var d := DateOf(n);
            || (d.year == 1999 && DaysBeforeYear(1999) == 729_754 && !Leap(1999) && d.month >= 9)
            || (d.year == 2000 && DaysBeforeYear(2000) == 730_119 && Leap(2000) && d.month <= 8)
  {
    hide DateOf;
    var d := DateOf(n);
    DayOfDate(n);
    WithinYear(d);
    assert DaysBeforeYear(1999) == 729_754 && DaysBeforeYear(2000) == 730_119 && DaysBeforeYear(2001) == 730_485;
    if d.year < 1999 { YearsGrow(d.year, 1999); }
    if d.year > 2000 { YearsGrow(2000, d.year); }
  }

  /** An expression for Friday the 13th parses and is sound, but the search can fail. */
  lemma Friday13Fails(e: Expression)
    requires OnlyFriday13(e)
    ensures NextMatch(e, 1440 * AFTER_AUGUST_1999).None? && !Covers(e)
  {
    hide DateOf;
    forall d: nat | AFTER_AUGUST_1999 <= d < AFTER_AUGUST_1999 + 366
      ensures !Admits(e, d)
    {
      NoFriday13(d);
    }
    UncoveredFails(e, AFTER_AUGUST_1999);
    CoverageAt(e, AFTER_AUGUST_1999);
  }

  lemma CoverageAt(e: Expression, n: nat)
    requires !Covered(e, n)
    ensures !Covers(e)
  {
    if Covers(e) { AlwaysCovered(e, n); }
  }
}
