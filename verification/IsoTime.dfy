/** Instants and their ISO 8601 text, the form in which the platform stores, compares and keys times. */
module IsoTime {
  import opened Calendar

  const SECOND := 1_000_000
  const MINUTE := 60 * SECOND
  const DAY := 86_400 * SECOND
  /** 1 January of year 10000, the first instant that a `datetime` cannot hold. */
  const END_OF_TIME := 3_652_059 * DAY

  /** Microseconds since 1 January of year 1, in UTC. */
  type Instant = t: int | 0 <= t < END_OF_TIME

  /** 1 January 1970. */
  const EPOCH: Instant := 719_162 * DAY

  datatype Option<+T> = None | Some(value: T)

  // ---------------------------------------------------------------- text order

  /** The order in which SQLite's binary collation compares ASCII text. */
  predicate TextLess(a: string, b: string) {
    b != [] && (a == [] || a[0] < b[0] || (a[0] == b[0] && TextLess(a[1..], b[1..])))
  }

  lemma {:induction false} TextLessPrefix(p: string, q: string, x: string, y: string)
    requires |p| == |q|
    ensures TextLess(p + x, q + y) <==> TextLess(p, q) || (p == q && TextLess(x, y))
    decreases |p|
  {
    if p == [] {
      assert p + x == x && q + y == y;
    } else {
      TextLessPrefix(p[1..], q[1..], x, y);
      assert (p + x)[1..] == p[1..] + x && (q + y)[1..] == q[1..] + y;
      assert p == [p[0]] + p[1..] && q == [q[0]] + q[1..];
    }
  }

  // ---------------------------------------------------------------- decimal fields

  function Pow10(w: nat): (r: nat)
    ensures r > 0
  {
    if w == 0 then 1 else 10 * Pow10(w - 1)
  }

  function Digit(d: int): (c: char)
    requires 0 <= d < 10
  {
    '0' + d as char
  }

  /** `n` in exactly `w` decimal digits. */
  function Pad(n: nat, w: nat): (s: string)
    ensures |s| == w
  {
    if w == 0 then "" else Pad(n / 10, w - 1) + [Digit(n % 10)]
  }

  predicate IsDigit(c: char) {
    '0' <= c <= '9'
  }

  /** The number a string of digits denotes. */
  function Number(s: string): (r: Option<nat>) {
    if s == "" then Some(0)
    else
      var last := s[|s| - 1];
      match Number(s[..|s| - 1])
      case None => None
      case Some(n) => if IsDigit(last) then Some(10 * n + (last - '0') as nat) else None
  }

  lemma {:induction false} PadOrder(a: nat, b: nat, w: nat)
    requires a < Pow10(w) && b < Pow10(w)
    ensures TextLess(Pad(a, w), Pad(b, w)) <==> a < b
    ensures Pad(a, w) == Pad(b, w) ==> a == b
  {
    if w > 0 {
      PadOrder(a / 10, b / 10, w - 1);
      var x, y := [Digit(a % 10)], [Digit(b % 10)];
      TextLessPrefix(Pad(a / 10, w - 1), Pad(b / 10, w - 1), x, y);
      assert TextLess(x, y) <==> a % 10 < b % 10;
      if Pad(a, w) == Pad(b, w) {
        assert Pad(a, w)[..w - 1] == Pad(a / 10, w - 1) && Pad(b, w)[..w - 1] == Pad(b / 10, w - 1);
        assert Pad(a, w)[w - 1] == x[0] && Pad(b, w)[w - 1] == y[0];
      }
    }
  }

  lemma {:induction false} NumberOfPad(n: nat, w: nat)
    requires n < Pow10(w)
    ensures Number(Pad(n, w)) == Some(n)
  {
    if w > 0 {
      NumberOfPad(n / 10, w - 1);
      assert Pad(n, w)[..w - 1] == Pad(n / 10, w - 1);
      assert Pad(n, w)[w - 1] == Digit(n % 10);
    }
  }

  // ---------------------------------------------------------------- the printer

  /** A field, its separator, and what follows. */
  function Field(n: nat, w: nat, sep: char, rest: string): (s: string) {
    Pad(n, w) + [sep] + rest
  }

  lemma FieldOrder(a: nat, b: nat, w: nat, sep: char, x: string, y: string)
    requires a < Pow10(w) && b < Pow10(w)
    ensures TextLess(Field(a, w, sep, x), Field(b, w, sep, y)) <==> a < b || (a == b && TextLess(x, y))
  {
    PadOrder(a, b, w);
    assert Field(a, w, sep, x) == Pad(a, w) + ([sep] + x);
    assert Field(b, w, sep, y) == Pad(b, w) + ([sep] + y);
    TextLessPrefix(Pad(a, w), Pad(b, w), [sep] + x, [sep] + y);
    TextLessPrefix([sep], [sep], x, y);
  }

  /** Fraction digits appear only when there is a fraction. */
  function Fraction(us: nat): string {
    if us == 0 then "+00:00" else "." + Pad(us, 6) + "+00:00"
  }

  /** An instant taken apart: the fields of a `datetime`. */
  datatype Moment = Moment(date: Date, hour: nat, minute: nat, second: nat, us: nat)

  predicate ValidMoment(m: Moment) {
    && ValidDate(m.date) && 1 <= m.date.year <= 9999
    && m.hour < 24 && m.minute < 60 && m.second < 60 && m.us < SECOND
  }

  function MomentValue(m: Moment): int
    requires ValidMoment(m)
  {
    DAY * DayOf(m.date) + SECOND * (3600 * m.hour + 60 * m.minute + m.second) + m.us
  }

  function MomentOf(t: Instant): (m: Moment)
    ensures ValidMoment(m)
  {
    YearRange(t / DAY);
    SplitDay(t);
    var s := t % DAY / SECOND;
    Sexagesimal(s);
    Moment(DateOf(t / DAY), s / 3600, s / 60 % 60, s % 60, t % SECOND)
  }

  lemma ValueOfMoment(t: Instant)
    ensures MomentValue(MomentOf(t)) == t
  {
    DayOfDate(t / DAY);
    SplitDay(t);
    Sexagesimal(t % DAY / SECOND);
  }

  predicate MomentLess(x: Moment, y: Moment) {
    || Before(x.date, y.date)
    || (x.date == y.date && x.hour < y.hour)
    || (x.date == y.date && x.hour == y.hour && x.minute < y.minute)
    || (x.date == y.date && x.hour == y.hour && x.minute == y.minute && x.second < y.second)
    || (x.date == y.date && x.hour == y.hour && x.minute == y.minute && x.second == y.second && x.us < y.us)
  }

  lemma MomentOrder(x: Moment, y: Moment)
    requires ValidMoment(x) && ValidMoment(y)
    ensures MomentLess(x, y) <==> MomentValue(x) < MomentValue(y)
  {
    DateOrder(x.date, y.date);
    MixedRadixOrder(DayOf(x.date), x.hour, x.minute, x.second, x.us, DayOf(y.date), y.hour, y.minute, y.second, y.us);
  }

  lemma MixedRadixOrder(d: int, h: nat, m: nat, s: nat, a: nat, e: int, i: nat, n: nat, r: nat, b: nat)
    requires h < 24 && i < 24 && m < 60 && n < 60 && s < 60 && r < 60 && a < SECOND && b < SECOND
    ensures DAY * d + SECOND * (3600 * h + 60 * m + s) + a < DAY * e + SECOND * (3600 * i + 60 * n + r) + b
       <==> || d < e
            || (d == e && h < i)
            || (d == e && h == i && m < n)
            || (d == e && h == i && m == n && s < r)
            || (d == e && h == i && m == n && s == r && a < b)
  {
    RadixOrder(24, d, h, e, i);
    RadixOrder(60, 24 * d + h, m, 24 * e + i, n);
    RadixOrder(60, 60 * (24 * d + h) + m, s, 60 * (24 * e + i) + n, r);
    RadixOrder(SECOND, 60 * (60 * (24 * d + h) + m) + s, a, 60 * (60 * (24 * e + i) + n) + r, b);
  }

  lemma RadixOrder(k: int, a: int, x: nat, b: int, y: nat)
    requires (k == 24 || k == 60 || k == SECOND) && x < k && y < k
    ensures k * a + x < k * b + y <==> a < b || (a == b && x < y)
    ensures k * a + x == k * b + y <==> a == b && x == y
  {}

  function ClockText(m: Moment): string {
    Field(m.hour, 2, ':', Field(m.minute, 2, ':', Pad(m.second, 2) + Fraction(m.us)))
  }

  function Print(m: Moment): string
    requires ValidMoment(m)
  {
    Field(m.date.year, 4, '-', Field(m.date.month, 2, '-', Field(m.date.day, 2, 'T', ClockText(m))))
  }

  /** `datetime.isoformat` of an instant in UTC. */
  function Iso(t: Instant): (s: string) {
    Print(MomentOf(t))
  }

  lemma YearRange(n: nat)
    requires n < 3_652_059
    ensures 1 <= DateOf(n).year <= 9999
  {
    hide DateOf;
    var d := DateOf(n);
    DayOfDate(n);
    WithinYear(d);
    assert DaysBeforeYear(10000) == 3_652_059;
    if d.year > 10000 { YearsGrow(10000, d.year); YearStep(10000); }
  }

  lemma FractionOrder(a: nat, b: nat)
    requires a < SECOND && b < SECOND
    ensures TextLess(Fraction(a), Fraction(b)) <==> a < b
  {
    var z := "+00:00";
    assert !TextLess(z, z);
    if a != 0 && b != 0 {
      PowersUsed();
      PadOrder(a, b, 6);
      TextLessPrefix(Pad(a, 6), Pad(b, 6), z, z);
      assert Fraction(a) == "." + (Pad(a, 6) + z) && Fraction(b) == "." + (Pad(b, 6) + z);
      TextLessPrefix(".", ".", Pad(a, 6) + z, Pad(b, 6) + z);
    }
  }

  lemma PowersUsed()
    ensures Pow10(2) == 100 && Pow10(4) == 10_000 && Pow10(6) == 1_000_000
  {
    assert Pow10(1) == 10;
    assert Pow10(2) == 100;
    assert Pow10(3) == 1000;
    assert Pow10(4) == 10_000;
    assert Pow10(5) == 100_000;
  }

  lemma ClockTextOrder(x: Moment, y: Moment)
    requires ValidMoment(x) && ValidMoment(y) && x.date == y.date
    ensures TextLess(ClockText(x), ClockText(y)) <==> MomentLess(x, y)
  {
    PowersUsed();
    FractionOrder(x.us, y.us);
    PadOrder(x.second, y.second, 2);
    TextLessPrefix(Pad(x.second, 2), Pad(y.second, 2), Fraction(x.us), Fraction(y.us));
    var p, q := Pad(x.second, 2) + Fraction(x.us), Pad(y.second, 2) + Fraction(y.us);
    FieldOrder(x.minute, y.minute, 2, ':', p, q);
    FieldOrder(x.hour, y.hour, 2, ':', Field(x.minute, 2, ':', p), Field(y.minute, 2, ':', q));
  }

  lemma PrintOrder(x: Moment, y: Moment)
    requires ValidMoment(x) && ValidMoment(y)
    ensures TextLess(Print(x), Print(y)) <==> MomentLess(x, y)
  {
    PowersUsed();
    var p, q := ClockText(x), ClockText(y);
    var d, e := Field(x.date.day, 2, 'T', p), Field(y.date.day, 2, 'T', q);
    if x.date == y.date { ClockTextOrder(x, y); }
    FieldOrder(x.date.day, y.date.day, 2, 'T', p, q);
    FieldOrder(x.date.month, y.date.month, 2, '-', d, e);
    FieldOrder(x.date.year, y.date.year, 4, '-', Field(x.date.month, 2, '-', d), Field(y.date.month, 2, '-', e));
  }

  lemma Sexagesimal(s: nat)
    ensures s == 3600 * (s / 3600) + 60 * (s / 60 % 60) + s % 60
  {
    assert s / 60 / 60 == s / 3600;
  }

  /** Text order is time order, for every pair of instants and whatever their fraction digits. */
  lemma IsoOrder(a: Instant, b: Instant)
    ensures TextLess(Iso(a), Iso(b)) <==> a < b
  {
    ValueOfMoment(a); ValueOfMoment(b);
    PrintOrder(MomentOf(a), MomentOf(b));
    MomentOrder(MomentOf(a), MomentOf(b));
  }

  lemma SplitDay(t: nat)
    ensures t % SECOND < SECOND
    ensures t == DAY * (t / DAY) + SECOND * (t % DAY / SECOND) + t % SECOND
    ensures 0 <= t % DAY / SECOND < 86_400
  {
    var k := t % DAY;
    assert t == DAY * (t / DAY) + k;
    assert k == SECOND * (k / SECOND) + k % SECOND;
    ModOfSum(86_400 * (t / DAY) + k / SECOND, k % SECOND);
    assert t == SECOND * (86_400 * (t / DAY) + k / SECOND) + k % SECOND;
  }

  lemma ModOfSum(q: int, r: nat)
    requires r < SECOND
    ensures (SECOND * q + r) % SECOND == r
  {}

  lemma IsoInjective(a: Instant, b: Instant)
    ensures Iso(a) == Iso(b) ==> a == b
  {
    IsoOrder(a, b); IsoOrder(b, a);
  }

  // ---------------------------------------------------------------- the parser

  lemma MomentInRange(m: Moment)
    requires ValidMoment(m)
    ensures 0 <= MomentValue(m) < END_OF_TIME
  {
    hide DayOf, DaysBeforeYear;
    WithinYear(m.date);
    YearsAreOrdered(m.date.year);
  }

  lemma YearsAreOrdered(y: int)
    requires 1 <= y <= 9999
    ensures 0 <= DaysBeforeYear(y) && DaysBeforeYear(y + 1) <= 3_652_059
  {
    if y > 1 { YearsGrow(1, y); }
    if y < 9999 { YearsGrow(y, 10000); }
    assert DaysBeforeYear(1) == 0 && DaysBeforeYear(2) == 365 && DaysBeforeYear(10000) == 3_652_059;
  }

  function NumberOr(s: string, other: nat): nat {
    match Number(s) case None => other case Some(n) => n
  }

  /** The fields read off a text of 25 or 32 characters; 99 marks a field that is not a number. */
  function Fields(s: string): Moment
    requires |s| == 25 || |s| == 32
  {
    Moment(Date(NumberOr(s[..4], 0), NumberOr(s[5..7], 99), NumberOr(s[8..10], 99)),
           NumberOr(s[11..13], 99), NumberOr(s[14..16], 99), NumberOr(s[17..19], 99),
           if |s| == 25 then 0 else NumberOr(s[20..26], SECOND))
  }

  /** The separators of the two shapes that `Iso` writes; any character may stand between date and time. */
  predicate Shaped(s: string) {
    && (|s| == 25 || |s| == 32)
    && s[4] == '-' && s[7] == '-' && s[13] == ':' && s[16] == ':'
    && (|s| == 32 ==> s[19] == '.')
    && s[|s| - 6..] == "+00:00"
  }

  /** `datetime.fromisoformat` on the shapes that `Iso` writes. */
  function ParseIso(s: string): (r: Option<Instant>) {
    if !Shaped(s) then None
    else
      var m := Fields(s);
      if !ValidMoment(m) then None
      else
        MomentInRange(m);
        Some(MomentValue(m))
  }

  lemma FieldsOfPrint(m: Moment)
    requires ValidMoment(m)
    ensures Shaped(Print(m)) && Fields(Print(m)) == m
  {
    hide Print, ClockText, Pad, Number;
    PowersUsed();
    NumberOfPad(m.date.year, 4);
    NumberOfPad(m.date.month, 2);
    NumberOfPad(m.date.day, 2);
    NumberOfPad(m.hour, 2);
    NumberOfPad(m.minute, 2);
    NumberOfPad(m.second, 2);
    NumberOfPad(m.us, 6);
    DateLayout(m);
    ClockLayout(m);
    var p, z := Print(m), ClockText(m);
    assert p[13] == z[2] && p[16] == z[5] && p[|p| - 6..] == z[|z| - 6..];
    assert p[11..13] == z[..2] && p[14..16] == z[3..5] && p[17..19] == z[6..8];
    if m.us != 0 {
      assert p[19] == z[8] && p[20..26] == z[9..15];
    }
  }

  lemma DateLayout(m: Moment)
    requires ValidMoment(m)
    ensures |Print(m)| == 11 + |ClockText(m)|
    ensures Print(m)[..4] == Pad(m.date.year, 4) && Print(m)[5..7] == Pad(m.date.month, 2)
    ensures Print(m)[4] == '-' && Print(m)[7] == '-'
    ensures Print(m)[8..10] == Pad(m.date.day, 2) && Print(m)[11..] == ClockText(m)
  {
    hide Pad, ClockText;
    DateSlices(Pad(m.date.year, 4), Pad(m.date.month, 2), Pad(m.date.day, 2), ClockText(m));
  }

  lemma DateSlices(year: string, month: string, day: string, clock: string)
    requires |year| == 4 && |month| == 2 && |day| == 2
    ensures var p := year + ['-'] + (month + ['-'] + (day + ['T'] + clock));
            && |p| == 11 + |clock| && p[..4] == year && p[4] == '-' && p[5..7] == month && p[7] == '-'
            && p[8..10] == day && p[11..] == clock
  {
    var back := day + ['T'] + clock;
    var mid := month + ['-'] + back;
    var p := year + ['-'] + mid;
    Parts(year, '-', mid);
    Parts(month, '-', back);
    Parts(day, 'T', clock);
    TailSlice(p, 5, 0, 2);
    TailSlice(p, 5, 3, 5);
    TailSlice(mid, 3, 0, 2);
    TailSlice(p, 5, 6, |mid|);
    TailSlice(mid, 3, 3, |back|);
  }

  lemma ClockLayout(m: Moment)
    requires ValidMoment(m)
    ensures |ClockText(m)| == if m.us == 0 then 14 else 21
    ensures ClockText(m)[..2] == Pad(m.hour, 2) && ClockText(m)[3..5] == Pad(m.minute, 2)
    ensures ClockText(m)[6..8] == Pad(m.second, 2)
    ensures ClockText(m)[2] == ':' && ClockText(m)[5] == ':' && ClockText(m)[|ClockText(m)| - 6..] == "+00:00"
    ensures m.us != 0 ==> ClockText(m)[8] == '.' && ClockText(m)[9..15] == Pad(m.us, 6)
  {
    hide Pad;
    ClockSlices(Pad(m.hour, 2), Pad(m.minute, 2), Pad(m.second, 2), Fraction(m.us));
    var f := Fraction(m.us);
    if m.us != 0 {
      assert f == ['.'] + (Pad(m.us, 6) + "+00:00");
      assert f[1..7] == Pad(m.us, 6);
    }
  }

  lemma ClockSlices(h: string, mi: string, s: string, f: string)
    requires |h| == 2 && |mi| == 2 && |s| == 2 && |f| >= 6
    ensures var z := h + [':'] + (mi + [':'] + (s + f));
            && |z| == 8 + |f| && z[..2] == h && z[2] == ':' && z[3..5] == mi && z[5] == ':' && z[6..8] == s && z[8..] == f
            && z[|z| - 6..] == f[|f| - 6..] && (|f| >= 7 ==> z[9..15] == f[1..7])
  {
    var seconds := s + f;
    var back := mi + [':'] + seconds;
    var z := h + [':'] + back;
    Parts(h, ':', back);
    Parts(mi, ':', seconds);
    assert seconds[..2] == s && seconds[2..] == f;
    TailSlice(z, 3, 0, 2);
    TailSlice(z, 3, 3, 5);
    TailSlice(back, 3, 0, 2);
    assert z[8..] == back[5..] == f by { TailSlice(z, 3, 5, |back|); TailSlice(back, 3, 2, |seconds|); }
    TailSlice(z, 8, |f| - 6, |f|);
    if |f| >= 7 { TailSlice(z, 8, 1, 7); }
  }

  lemma Parts(x: string, sep: char, y: string)
    ensures var z := x + [sep] + y; |z| == |x| + 1 + |y| && z[..|x|] == x && z[|x|] == sep && z[|x| + 1..] == y
  {}

  lemma TailSlice(z: string, a: nat, b: nat, c: nat)
    requires b <= c && a + c <= |z|
    ensures z[a..][b..c] == z[a + b..a + c]
  {}

  /** Reading an instant's text gives the instant back. */
  lemma IsoRoundTrip(t: Instant)
    ensures ParseIso(Iso(t)) == Some(t)
  {
    ValueOfMoment(t);
    FieldsOfPrint(MomentOf(t));
  }

  lemma MomentIs(t: Instant, m: Moment)
    requires ValidMoment(m) && MomentValue(m) == t
    ensures MomentOf(t) == m
  {
    hide MomentOf, DayOf, Before;
    ValueOfMoment(t);
    var x := MomentOf(t);
    MomentOrder(x, m);
    MomentOrder(m, x);
    SameOrder(x, m);
  }

  lemma SameOrder(x: Moment, y: Moment)
    requires ValidMoment(x) && ValidMoment(y) && !MomentLess(x, y) && !MomentLess(y, x)
    ensures x == y
  {}

  /** For instance, where interval slots are counted from. */
  lemma EpochText()
    ensures Iso(EPOCH) == "1970-01-01T00:00:00+00:00"
  {
    hide DateOf, MomentOf;
    var m := Moment(Date(1970, 1, 1), 0, 0, 0, 0);
    assert DaysBeforeYear(1970) == 719_162;
    MomentIs(EPOCH, m);
    EpochPrinted(m);
  }

  lemma EpochPrinted(m: Moment)
    requires m == Moment(Date(1970, 1, 1), 0, 0, 0, 0)
    ensures Print(m) == "1970-01-01T00:00:00+00:00"
  {
    TwoDigits();
    hide Pad;
    assert ClockText(m) == "00" + ":" + ("00" + ":" + ("00" + "+00:00"));
    assert Print(m) == "1970" + "-" + ("01" + "-" + ("01" + "T" + ClockText(m)));
  }

  lemma TwoDigits()
    ensures Pad(1970, 4) == "1970" && Pad(1, 2) == "01" && Pad(0, 2) == "00"
  {
    assert Pad(1, 1) == "1" && Pad(0, 1) == "0";
    assert Pad(19, 2) == "19";
    assert Pad(197, 3) == "197";
  }

  // ---------------------------------------------------------------- run keys

  /** The idempotency key of a schedule slot. */
  function RunKey(id: string, slot: Instant): (key: string) {
    id + ":" + Iso(slot)
  }

  lemma PrintShape(m: Moment)
    requires ValidMoment(m)
    ensures |Print(m)| == 25 || |Print(m)| == 32
    ensures Print(m)[6] != ':'
  {
    DateLayout(m);
    ClockLayout(m);
    assert Print(m)[6] == Print(m)[5..7][1];
    assert Pad(m.date.month, 2)[1] == Digit(m.date.month % 10);
    hide Print, ClockText;
  }

  /** Different schedules and different slots never share a key, whatever characters the ids hold. */
  lemma RunKeyInjective(id: string, s: Instant, jd: string, t: Instant)
    ensures RunKey(id, s) == RunKey(jd, t) ==> id == jd && s == t
  {
    if RunKey(id, s) == RunKey(jd, t) {
      var k := RunKey(id, s);
      PrintShape(MomentOf(s)); PrintShape(MomentOf(t));
      var m, n := |k| - |Iso(s)|, |k| - |Iso(t)|;
      assert k[m..] == Iso(s) && k[n..] == Iso(t);
      assert k[m - 1] == ':' && k[n - 1] == ':';
      assert k[..m - 1] == id && k[..n - 1] == jd;
      if |Iso(s)| == |Iso(t)| {
        IsoInjective(s, t);
      } else {
        assert false;
      }
    }
  }
}
