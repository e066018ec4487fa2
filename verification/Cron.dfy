/** Five-field cron expressions as `CronExpression` reads them: Monday is weekday 0, and the day of
    the month and the weekday must both match. The `crontab` utility of IEEE Std 1003.1 differs on both. */
module Cron {
  import opened Calendar
  import opened IsoTime

  /** One comma-separated item of a field, after its integers have been read. */
  datatype Base = Star | Range(lo: int, hi: int) | Single(v: int)
  datatype Item = Malformed | Item(base: Base, step: int)

  datatype Result<+T> = Ok(value: T) | Error

  /** Minute, hour, day of month, month and weekday sets. */
  datatype Expression = Expression(minutes: set<int>, hours: set<int>, days: set<int>, months: set<int>, weekdays: set<int>)

  const LIMITS: seq<(int, int)> := [(0, 59), (0, 23), (1, 31), (1, 12), (0, 6)]

  /** The search gives up after this many minutes: 366 days. */
  const SEARCH_LIMIT: nat := 60 * 24 * 366

  // ---------------------------------------------------------------- parsing

  function First(b: Base, min: int): int {
    match b case Star => min case Range(lo, _) => lo case Single(v) => v
  }

  function Last(b: Base, max: int): int {
    match b case Star => max case Range(_, hi) => hi case Single(v) => v
  }

  predicate ItemOk(i: Item, min: int, max: int) {
    i.Item? && i.step > 0 && min <= First(i.base, min) <= Last(i.base, max) <= max
  }

  /** `v` is one of the values first, first + step, ... up to last. */
  predicate InItem(v: int, i: Item, min: int, max: int)
    requires ItemOk(i, min, max)
  {
    First(i.base, min) <= v <= Last(i.base, max) && (v - First(i.base, min)) % i.step == 0
  }

  /** `range(start, end + 1, step)` as a set. */
  function Stepped(i: Item, min: int, max: int): set<int>
    requires ItemOk(i, min, max)
  {
    set v | First(i.base, min) <= v <= Last(i.base, max) && InItem(v, i, min, max)
  }

  predicate AllOk(items: seq<Item>, min: int, max: int) {
    forall k :: 0 <= k < |items| ==> ItemOk(items[k], min, max)
  }

  /** The set built so far after each item. */
  function Gathered(items: seq<Item>, min: int, max: int): set<int>
    requires AllOk(items, min, max)
  {
    if items == [] then {}
    else Gathered(items[..|items| - 1], min, max) + Stepped(items[|items| - 1], min, max)
  }

  /** A parsed field is the union of its items' stepped ranges, and lies inside the limits. */
  lemma {:induction false} GatheredIsUnion(items: seq<Item>, min: int, max: int, v: int)
    requires AllOk(items, min, max)
    ensures v in Gathered(items, min, max) <==> exists k :: 0 <= k < |items| && InItem(v, items[k], min, max)
    ensures v in Gathered(items, min, max) ==> min <= v <= max
  {
    if items != [] {
      var n := |items| - 1;
      var front := items[..n];
      GatheredIsUnion(front, min, max, v);
      if k :| 0 <= k < |items| && InItem(v, items[k], min, max) {
        if k < n { assert InItem(v, front[k], min, max); }
      }
      if k :| 0 <= k < |front| && InItem(v, front[k], min, max) {
        assert InItem(v, items[k], min, max);
      }
    }
  }

  /** The n-th value of an item, counted from the lower limit, the lower end of its range, or its only value. */
  predicate IsValue(i: Item, n: nat, min: int, max: int, v: int) {
    i.Item? &&
    match i.base
    case Star => v == min + n * i.step <= max
    case Range(lo, hi) => v == lo + n * i.step <= hi
    case Single(only) => v == only && n == 0
  }

  /** A value is in the parsed field iff it is the n-th value of some item. */
  lemma FieldValues(items: seq<Item>, min: int, max: int, v: int)
    requires AllOk(items, min, max)
    ensures v in Gathered(items, min, max) <==> exists k, n: nat :: 0 <= k < |items| && IsValue(items[k], n, min, max, v)
  {
    GatheredIsUnion(items, min, max, v);
    if v in Gathered(items, min, max) {
      var k :| 0 <= k < |items| && InItem(v, items[k], min, max);
      var n := StepsExist(items[k], min, max, v);
      assert IsValue(items[k], n, min, max, v);
    }
    if k, n: nat :| 0 <= k < |items| && IsValue(items[k], n, min, max, v) {
      assert items[k].base.Single? ==> n * items[k].step == 0;
      StepIsIn(items[k], min, max, v, n);
    }
  }

  lemma StepsExist(i: Item, min: int, max: int, v: int) returns (n: nat)
    requires ItemOk(i, min, max) && InItem(v, i, min, max)
    ensures v == First(i.base, min) + n * i.step && (i.base.Single? ==> n == 0)
  {
    n := (v - First(i.base, min)) / i.step;
  }

  lemma StepIsIn(i: Item, min: int, max: int, v: int, n: nat)
    requires ItemOk(i, min, max) && v == First(i.base, min) + n * i.step && v <= Last(i.base, max)
    ensures InItem(v, i, min, max)
  {
    MultipleOf(n, i.step);
  }

  lemma MultipleOf(n: nat, step: int)
    requires step > 0
    ensures n * step >= 0 && (n * step) % step == 0
  {
    var q, r := n * step / step, n * step % step;
    var d := n - q;
    assert n * step == step * q + r;
    assert step * d == r;
    if d != 0 { FactorBounds(step, d); }
  }

  lemma FactorBounds(step: int, d: int)
    requires step > 0 && d != 0
    ensures step * d >= step || step * d <= -step
  {}

  /** `_parse_field`, which fills a set item by item and refuses the field at the first bad item. */
  method ParseField(items: seq<Item>, min: int, max: int) returns (r: Result<set<int>>)
    ensures r.Ok? <==> items != [] && AllOk(items, min, max)
    ensures r.Ok? ==> r.value == Gathered(items, min, max) && r.value != {}
  {
    var values: set<int> := {};
    var n := 0;
    while n < |items|
      invariant 0 <= n <= |items|
      invariant AllOk(items[..n], min, max)
      invariant values == Gathered(items[..n], min, max)
      invariant n > 0 ==> values != {}
    {
      var item := items[n];
      if !ItemOk(item, min, max) {
        return Error;
      }
      assert items[..n + 1][..n] == items[..n];
      assert First(item.base, min) in Stepped(item, min, max);
      values := values + Stepped(item, min, max);
      n := n + 1;
    }
    assert items[..n] == items;
    if values == {} {
      return Error;
    }
    return Ok(values);
  }

  /** `CronExpression`: five fields, each inside its limits. */
  function Parsed(fields: seq<seq<Item>>): (r: Result<Expression>) {
    if |fields| != 5 || exists k :: 0 <= k < 5 && !FieldOk(fields[k], LIMITS[k]) then Error
    else
      var value := (k: int) requires 0 <= k < 5 => Gathered(fields[k], LIMITS[k].0, LIMITS[k].1);
      Ok(Expression(value(0), value(1), value(2), value(3), value(4)))
  }

  predicate FieldOk(items: seq<Item>, limits: (int, int)) {
    items != [] && AllOk(items, limits.0, limits.1)
  }

  method CronExpression(fields: seq<seq<Item>>) returns (r: Result<Expression>)
    ensures r == Parsed(fields)
  {
    if |fields| != 5 {
      return Error;
    }
    var parsed: seq<set<int>> := [];
    var k := 0;
    while k < 5
      invariant 0 <= k <= 5 && |parsed| == k
      invariant forall j :: 0 <= j < k ==> FieldOk(fields[j], LIMITS[j])
      invariant forall j :: 0 <= j < k ==> parsed[j] == Gathered(fields[j], LIMITS[j].0, LIMITS[j].1)
    {
      var field := ParseField(fields[k], LIMITS[k].0, LIMITS[k].1);
      if field.Error? {
        assert !FieldOk(fields[k], LIMITS[k]);
        return Error;
      }
      parsed := parsed + [field.value];
      k := k + 1;
    }
    return Ok(Expression(parsed[0], parsed[1], parsed[2], parsed[3], parsed[4]));
  }

  // ---------------------------------------------------------------- matching and search

  /** `CronExpression.matches`, on the minute with this number (minute 0 starts year 1). */
  predicate Matches(e: Expression, minute: nat) {
    var day := minute / 1440;
    var date := DateOf(day);
    && minute % 60 in e.minutes
    && minute / 60 % 24 in e.hours
    && date.day in e.days
    && date.month in e.months
    && Weekday(day) in e.weekdays
  }

  function Hit(e: Expression): nat -> bool {
    (minute: nat) => Matches(e, minute)
  }

  /** The first number in from..end that `p` admits, looked for one at a time. */
  function Search(p: nat -> bool, from: nat, end: nat): (r: Option<nat>)
    decreases end - from
  {
    if from >= end then None
    else if p(from) then Some(from)
    else Search(p, from + 1, end)
  }

  /** What the search looks up for one expression. */
  function NextMatch(e: Expression, from: nat): (r: Option<nat>) {
    Search(Hit(e), from, from + SEARCH_LIMIT)
  }

  /** The search loop of `scheduled_for`. */
  method FindMatch(e: Expression, from: nat) returns (r: Option<nat>)
    ensures r == NextMatch(e, from)
  {
    hide DateOf;
    var cursor := from;
    var n := SEARCH_LIMIT;
    while n > 0
      invariant cursor + n == from + SEARCH_LIMIT
      invariant NextMatch(e, from) == Search(Hit(e), cursor, from + SEARCH_LIMIT)
    {
      var found := Matches(e, cursor);
      assert found == Hit(e)(cursor);
      if found {
        return Some(cursor);
      }
      cursor := cursor + 1;
      n := n - 1;
    }
    return None;
  }

  /** The search returns the least admitted number, and fails exactly when the window holds none. */
  lemma {:induction false} SearchIsLeast(p: nat -> bool, from: nat, end: nat)
    ensures Search(p, from, end).None? <==> forall m: nat :: from <= m < end ==> !p(m)
    ensures Search(p, from, end).Some? ==>
              var m := Search(p, from, end).value;
              from <= m < end && p(m) && forall k: nat :: from <= k < m ==> !p(k)
    decreases end - from
  {
    if from < end && !p(from) {
      SearchIsLeast(p, from + 1, end);
    }
  }

  /** Whoever names the least admitted number of the window names the search's answer. */
  lemma SearchFinds(p: nat -> bool, from: nat, end: nat, m: nat)
    requires from <= m < end && p(m)
    requires forall k: nat :: from <= k < m ==> !p(k)
    ensures Search(p, from, end) == Some(m)
  {
    SearchIsLeast(p, from, end);
  }

  /** The slot search fails exactly when the next 527040 minutes hold no match; otherwise it returns
      the least match not before its start. */
  lemma NextMatchIsLeast(e: Expression, from: nat)
    ensures NextMatch(e, from).None? <==> forall m: nat :: from <= m < from + 527040 ==> !Hit(e)(m)
    ensures NextMatch(e, from).Some? ==>
              var m := NextMatch(e, from).value;
              from <= m < from + 527040 && Hit(e)(m) && forall k: nat :: from <= k < m ==> !Hit(e)(k)
  {
    hide Matches;
    SearchIsLeast(Hit(e), from, from + SEARCH_LIMIT);
  }

  /** Starting anywhere between a start and its answer gives the same answer. */
  lemma NextMatchConstant(e: Expression, from: nat, later: nat)
    requires NextMatch(e, from).Some? && from <= later <= NextMatch(e, from).value
    ensures NextMatch(e, later) == NextMatch(e, from)
  {
    hide Matches;
    NextMatchIsLeast(e, from);
    SearchFinds(Hit(e), later, later + SEARCH_LIMIT, NextMatch(e, from).value);
  }

  lemma NextMatchMonotone(e: Expression, from: nat, later: nat)
    requires from <= later && NextMatch(e, from).Some? && NextMatch(e, later).Some?
    ensures NextMatch(e, from).value <= NextMatch(e, later).value
  {
    hide Matches;
    NextMatchIsLeast(e, later);
    if later <= NextMatch(e, from).value {
      NextMatchConstant(e, from, later);
    }
  }

  // ---------------------------------------------------------------- the 366-day bound

  /** A set of values that is not empty and lies inside the limits. */
  predicate Within(values: set<int>, limits: (int, int)) {
    (exists v :: v in values) && forall v <- values :: limits.0 <= v <= limits.1
  }

  predicate WellFormed(e: Expression) {
    && Within(e.minutes, (0, 59)) && Within(e.hours, (0, 23))
    && Within(e.days, (1, 31)) && Within(e.months, (1, 12)) && Within(e.weekdays, (0, 6))
  }

  lemma {:induction false} GatheredNonempty(items: seq<Item>, min: int, max: int)
    requires FieldOk(items, (min, max))
    ensures First(items[0].base, min) in Gathered(items, min, max)
  {
    GatheredIsUnion(items, min, max, First(items[0].base, min));
    assert InItem(First(items[0].base, min), items[0], min, max);
  }

  lemma GatheredWithin(items: seq<Item>, limits: (int, int))
    requires FieldOk(items, limits)
    ensures Within(Gathered(items, limits.0, limits.1), limits)
  {
    GatheredNonempty(items, limits.0, limits.1);
    forall v | v in Gathered(items, limits.0, limits.1)
      ensures limits.0 <= v <= limits.1
    {
      GatheredIsUnion(items, limits.0, limits.1, v);
    }
  }

  /** Every expression that parses has five non-empty sets inside their limits. */
  lemma ParsedIsWellFormed(fields: seq<seq<Item>>)
    requires Parsed(fields).Ok?
    ensures WellFormed(Parsed(fields).value)
  {
    hide Within, Gathered;
    assert LIMITS == [(0, 59), (0, 23), (1, 31), (1, 12), (0, 6)];
    assert FieldOk(fields[0], LIMITS[0]) && FieldOk(fields[1], LIMITS[1]) && FieldOk(fields[2], LIMITS[2]);
    assert FieldOk(fields[3], LIMITS[3]) && FieldOk(fields[4], LIMITS[4]);
    GatheredWithin(fields[0], (0, 59));
    GatheredWithin(fields[1], (0, 23));
    GatheredWithin(fields[2], (1, 31));
    GatheredWithin(fields[3], (1, 12));
    GatheredWithin(fields[4], (0, 6));
  }

  predicate AnyWeekday(e: Expression) {
    forall w :: 0 <= w <= 6 ==> w in e.weekdays
  }

  /** The expression admits the `day`-th of `month`, a date that every year has. */
  predicate YearlyDate(e: Expression, month: int, day: int) {
    month in e.months && day in e.days && day <= MonthLength(false, month)
  }

  ghost predicate HasYearlyDate(e: Expression) {
    exists month, day :: YearlyDate(e, month, day)
  }

  function MinuteOn(y: int, month: int, day: int, h: int, mi: int): int
    requires 1 <= month <= 12
  {
    1440 * DayOf(Date(y, month, day)) + 60 * h + mi
  }

  lemma MinuteParts(day: nat, h: nat, mi: nat)
    requires h < 24 && mi < 60
    ensures (1440 * day + 60 * h + mi) / 1440 == day
    ensures (1440 * day + 60 * h + mi) / 60 % 24 == h
    ensures (1440 * day + 60 * h + mi) % 60 == mi
  {
    var m := 1440 * day + 60 * h + mi;
    assert m == 60 * (24 * day + h) + mi;
    assert m / 60 == 24 * day + h;
  }

  /** Which field of the text fills which set of the expression. */
  lemma ParsedSets(fields: seq<seq<Item>>, v: int)
    requires Parsed(fields).Ok?
    ensures |fields| == 5
    ensures v in Parsed(fields).value.minutes <==> exists k, n: nat :: 0 <= k < |fields[0]| && IsValue(fields[0][k], n, 0, 59, v)
    ensures v in Parsed(fields).value.hours <==> exists k, n: nat :: 0 <= k < |fields[1]| && IsValue(fields[1][k], n, 0, 23, v)
    ensures v in Parsed(fields).value.days <==> exists k, n: nat :: 0 <= k < |fields[2]| && IsValue(fields[2][k], n, 1, 31, v)
    ensures v in Parsed(fields).value.months <==> exists k, n: nat :: 0 <= k < |fields[3]| && IsValue(fields[3][k], n, 1, 12, v)
    ensures v in Parsed(fields).value.weekdays <==> exists k, n: nat :: 0 <= k < |fields[4]| && IsValue(fields[4][k], n, 0, 6, v)
  {
    hide IsValue, Gathered, AllOk;
    assert LIMITS == [(0, 59), (0, 23), (1, 31), (1, 12), (0, 6)];
    assert FieldOk(fields[0], LIMITS[0]) && FieldOk(fields[1], LIMITS[1]) && FieldOk(fields[2], LIMITS[2]);
    assert FieldOk(fields[3], LIMITS[3]) && FieldOk(fields[4], LIMITS[4]);
    FieldValues(fields[0], 0, 59, v);
    FieldValues(fields[1], 0, 23, v);
    FieldValues(fields[2], 1, 31, v);
    FieldValues(fields[3], 1, 12, v);
    FieldValues(fields[4], 0, 6, v);
  }

  /** Which texts parse: five fields, none of them empty, each item with a positive step and inside its limits. */
  lemma ParsesIff(fields: seq<seq<Item>>)
    ensures Parsed(fields).Ok? <==>
            && |fields| == 5
            && InLimits(fields[0], 0, 59) && InLimits(fields[1], 0, 23) && InLimits(fields[2], 1, 31)
            && InLimits(fields[3], 1, 12) && InLimits(fields[4], 0, 6)
  {
    assert LIMITS == [(0, 59), (0, 23), (1, 31), (1, 12), (0, 6)];
    if |fields| == 5 {
      InLimitsIff(fields[0], 0, 59); InLimitsIff(fields[1], 0, 23); InLimitsIff(fields[2], 1, 31);
      InLimitsIff(fields[3], 1, 12); InLimitsIff(fields[4], 0, 6);
      hide FieldOk, InLimits;
    }
  }

  predicate InLimits(items: seq<Item>, min: int, max: int) {
    && items != []
    && forall i <- items ::
         && i.Item? && i.step > 0
         && (i.base.Range? ==> min <= i.base.lo <= i.base.hi <= max)
         && (i.base.Single? ==> min <= i.base.v <= max)
  }

  lemma InLimitsIff(items: seq<Item>, min: int, max: int)
    requires min <= max
    ensures FieldOk(items, (min, max)) <==> InLimits(items, min, max)
  {}

  lemma MatchesOn(e: Expression, date: Date, h: nat, mi: nat)
    requires ValidDate(date) && DayOf(date) >= 0 && h < 24 && mi < 60
    requires h in e.hours && mi in e.minutes && date.day in e.days && date.month in e.months
    requires AnyWeekday(e)
    ensures Matches(e, 1440 * DayOf(date) + 60 * h + mi)
  {
    hide DateOf, DayOf;
    DateRoundTrip(date);
    MinuteParts(DayOf(date), h, mi);
  }

  lemma YearlyMatch(e: Expression, y: int, month: int, day: int, h: int, mi: int)
    requires WellFormed(e) && AnyWeekday(e) && YearlyDate(e, month, day) && y >= 1
    requires h in e.hours && mi in e.minutes
    ensures MinuteOn(y, month, day, h, mi) >= 0 && Hit(e)(MinuteOn(y, month, day, h, mi))
  {
    var date := Date(y, month, day);
    assert ValidDate(date);
    YearIsPositive(date);
    MatchesOn(e, date, h, mi);
  }

  /** The same date one year on is at most 366 days later. */
  lemma NextYearGap(y: int, month: int, day: int)
    requires 1 <= month <= 12 && 1 <= day <= MonthLength(false, month)
    ensures DayOf(Date(y + 1, month, day)) <= DayOf(Date(y, month, day)) + 366
  {
    YearStep(y);
    LeapsApart(y);
  }

  lemma LeapsApart(y: int)
    ensures !(Leap(y) && Leap(y + 1))
  {}

  /** The admitted date of this year or the next falls inside the window. */
  lemma OccurrenceInWindow(from: nat, month: int, day: int, h: nat, mi: nat)
    requires 1 <= month <= 12 && 1 <= day <= MonthLength(false, month) && h < 24 && mi < 60
    ensures var y := DateOf(from / 1440).year;
            || from <= MinuteOn(y, month, day, h, mi) < from + SEARCH_LIMIT
            || from <= MinuteOn(y + 1, month, day, h, mi) < from + SEARCH_LIMIT
  {
    hide DateOf, DayOf, DaysBeforeYear;
    var n := from / 1440;
    var y := DateOf(n).year;
    var here, next := DayOf(Date(y, month, day)), DayOf(Date(y + 1, month, day));
    DayOfDate(n);
    NextYearGap(y, month, day);
    WithinYear(DateOf(n));
    WithinYear(Date(y, month, day));
    WithinYear(Date(y + 1, month, day));
    YearStep(y);
    assert 1440 * n <= from < 1440 * n + 1440;
  }

  lemma SearchSucceeds(e: Expression, from: nat, month: int, day: int)
    requires WellFormed(e) && AnyWeekday(e) && YearlyDate(e, month, day)
    ensures NextMatch(e, from).Some?
  {
    hide DateOf, Matches, DayOf;
    var h: int :| h in e.hours;
    var mi: int :| mi in e.minutes;
    var y := DateOf(from / 1440).year;
    OccurrenceInWindow(from, month, day, h, mi);
    var here, next := MinuteOn(y, month, day, h, mi), MinuteOn(y + 1, month, day, h, mi);
    YearlyMatch(e, y, month, day, h, mi);
    YearlyMatch(e, y + 1, month, day, h, mi);
    MatchInWindow(e, from, if from <= here < from + SEARCH_LIMIT then here else next);
  }

  lemma MatchInWindow(e: Expression, from: nat, m: nat)
    requires from <= m < from + SEARCH_LIMIT && Hit(e)(m)
    ensures NextMatch(e, from).Some?
  {
    hide Matches;
    NextMatchIsLeast(e, from);
  }

  /** 1 March 2025: no leap day in the 366 days that follow. */
  const MARCH_2025: nat := 1440 * 739_310

  lemma YearAfterMarch2025(n: nat)
    requires 739_310 <= n < 739_310 + 366
    ensures DateOf(n).year == 2025 || DateOf(n).year == 2026
  {
    var y := DateOf(n).year;
    DayOfDate(n);
    WithinYear(DateOf(n));
    assert DaysBeforeYear(2025) == 739_251 && DaysBeforeYear(2027) == 739_981;
    if y < 2025 { YearsGrow(y, 2025); }
    if y > 2026 { YearsGrow(2026, y); }
  }

  lemma MatchAfterMarch2025(e: Expression, m: nat)
    requires WellFormed(e) && MARCH_2025 <= m < MARCH_2025 + SEARCH_LIMIT && Matches(e, m)
    ensures HasYearlyDate(e)
  {
    var d := DateOf(m / 1440);
    YearAfterMarch2025(m / 1440);
    assert !Leap(2025) && !Leap(2026);
    assert YearlyDate(e, d.month, d.day);
  }

  lemma SearchFailsAfterLeapDay(e: Expression)
    requires WellFormed(e) && !HasYearlyDate(e)
    ensures NextMatch(e, MARCH_2025).None?
  {
    hide DateOf, HasYearlyDate;
    forall m: nat | MARCH_2025 <= m < MARCH_2025 + SEARCH_LIMIT
      ensures !Hit(e)(m)
    {
      if Matches(e, m) { MatchAfterMarch2025(e, m); }
    }
    NextMatchIsLeast(e, MARCH_2025);
  }

  /** With a full weekday field the 366-day bound suffices from every start minute exactly when some admitted date exists in
      every year; 29 February alone is the one way to run out. */
  lemma BoundSuffices(e: Expression)
    requires WellFormed(e) && AnyWeekday(e)
    ensures (forall from: nat :: NextMatch(e, from).Some?) <==> HasYearlyDate(e)
  {
    hide Matches;
    if HasYearlyDate(e) {
      var month, day :| YearlyDate(e, month, day);
      forall from: nat
        ensures NextMatch(e, from).Some?
      {
        SearchSucceeds(e, from, month, day);
      }
    } else {
      SearchFailsAfterLeapDay(e);
    }
  }
}
