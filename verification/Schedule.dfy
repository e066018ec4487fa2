/** Schedule definitions, the slot a time belongs to, and the queue payload that carries that time. */
module Schedule {
  import opened IsoTime
  import opened Calendar
  import opened Cron
  import opened CronCoverage

  /** A reviewed schedule. `offset` is its time zone, as seconds east of UTC; `expression` holds the
      tokens of a cron expression; `at` and `expiresAt` are the instants their texts denote. */
  datatype Definition = Definition(
    id: string, version: string, agent: string, scheduleType: string, offset: int,
    expression: Option<seq<seq<Item>>>, at: Option<Instant>, intervalSeconds: Option<int>,
    maxRuntimeSeconds: int, maxConcurrency: int, retryLimit: int, permissionsMode: string,
    query: Option<string>, orderId: Option<string>, allowExternal: bool,
    expiresAt: Option<Instant>, notifyChannel: Option<string>, notifyOnlyIf: string)

  predicate InRange(t: int) {
    0 <= t < END_OF_TIME
  }

  // ---------------------------------------------------------------- slots

  /** `int(x / 1000000)`, which drops the fraction towards zero. */
  function WholeSeconds(us: int): int {
    if us >= 0 then us / SECOND else -((-us) / SECOND)
  }

  /** The remainder of Python's `%`, which takes the divisor's sign. */
  function FloorMod(a: int, n: int): int
    requires n != 0
  {
    if n > 0 then a % n else -((-a) % (-n))
  }

  function IntervalSlot(now: Instant, n: int): int
    requires n != 0
  {
    var elapsed := WholeSeconds(now - EPOCH);
    EPOCH + SECOND * (elapsed - FloorMod(elapsed, n))
  }

  /** The first minute boundary at or after a local time. */
  function CeilMinute(local: nat): nat {
    (local + MINUTE - 1) / MINUTE
  }

  function CronSlot(fields: seq<seq<Item>>, local: nat, offset: int): Result<Option<Instant>> {
    match Parsed(fields)
    case Error => Error
    case Ok(e) =>
      match NextMatch(e, CeilMinute(local))
      case None => Error
      case Some(m) =>
        var slot := MINUTE * m - SECOND * offset;
        if InRange(MINUTE * m) && InRange(slot) then Ok(Some(slot)) else Error
  }

  /** `scheduled_for`; `Error` stands for the exceptions it raises, `Ok(None)` for "not due". */
  function ScheduledFor(d: Definition, now: Instant): (r: Result<Option<Instant>>) {
    var local := now + SECOND * d.offset;
    if !InRange(local) then Error
    else if d.scheduleType == "one_shot" then
      match d.at
      case None => Error
      case Some(target) => if target <= now then Ok(Some(target)) else Ok(None)
    else if d.scheduleType == "interval" then
      if d.intervalSeconds == None || d.intervalSeconds == Some(0) then Error
      else
        var slot := IntervalSlot(now, d.intervalSeconds.value);
        if InRange(slot) then Ok(Some(slot)) else Error
    else if d.scheduleType == "cron" then
      match d.expression
      case None => Error
      case Some(fields) => CronSlot(fields, local, d.offset)
    else Error
  }

  predicate Due(d: Definition, now: Instant) {
    ScheduledFor(d, now).Ok? && ScheduledFor(d, now).value.Some?
  }

  function Slot(d: Definition, now: Instant): Instant
    requires Due(d, now)
  {
    ScheduledFor(d, now).value.value
  }

  lemma CeilMinuteBounds(local: nat)
    ensures MINUTE * CeilMinute(local) - MINUTE < local <= MINUTE * CeilMinute(local)
  {}

  lemma CeilMinuteMonotone(a: nat, b: nat)
    requires a <= b
    ensures CeilMinute(a) <= CeilMinute(b)
  {}

  /** A cron slot is never in the past: it is the next match at or after now, less than 366 days away, on a
      minute boundary of local time that the expression matches. */
  lemma CronSlotIsNext(d: Definition, now: Instant)
    requires d.scheduleType == "cron" && Due(d, now)
    ensures now <= Slot(d, now) < now + 366 * DAY
    ensures Parsed(d.expression.value).Ok?
    ensures var local := Slot(d, now) + SECOND * d.offset;
            && local % MINUTE == 0
            && local >= 0
            && Hit(Parsed(d.expression.value).value)(local / MINUTE)
            && forall m: nat :: now + SECOND * d.offset <= MINUTE * m < local ==> !Hit(Parsed(d.expression.value).value)(m)
  {
    hide Matches, Parsed;
    var local := now + SECOND * d.offset;
    var e := Parsed(d.expression.value).value;
    NextMatchIsLeast(e, CeilMinute(local));
    CeilMinuteBounds(local);
    var m := NextMatch(e, CeilMinute(local)).value;
    assert Slot(d, now) + SECOND * d.offset == MINUTE * m;
    MinuteMultiple(m);
    forall k: nat | local <= MINUTE * k < MINUTE * m
      ensures !Hit(e)(k)
    {
      assert CeilMinute(local) <= k < m;
    }
  }

  /** Matching a minute is matching the fields that the local clock shows at it. */
  lemma MatchesShown(e: Expression, minute: nat)
    requires InRange(MINUTE * minute)
    ensures var m := MomentOf(MINUTE * minute);
            && m.second == 0 && m.us == 0
            && (Matches(e, minute) <==> m.minute in e.minutes && m.hour in e.hours && m.date.day in e.days
                                        && m.date.month in e.months && DayOf(m.date) % 7 in e.weekdays)
  {
    hide DateOf;
    MinuteFields(minute);
    DayOfDate(minute / 1440);
  }

  lemma MinuteFields(minute: nat)
    ensures var t := MINUTE * minute;
            && t / DAY == minute / 1440 && t % SECOND == 0
            && var s := t % DAY / SECOND; s % 60 == 0 && s / 60 % 60 == minute % 60 && s / 3600 == minute / 60 % 24
  {
    var day, rest := minute / 1440, minute % 1440;
    assert MINUTE * minute == DAY * day + MINUTE * rest;
    RemainderOf(DAY, day, MINUTE * rest);
    RestOfDay(rest);
    MinuteOfDay(minute);
  }

  lemma RestOfDay(rest: nat)
    requires rest < 1440
    ensures MINUTE * rest / SECOND == 60 * rest
    ensures 60 * rest / 60 % 60 == rest % 60 && 60 * rest / 3600 == rest / 60 && 60 * rest % 60 == 0
  {}

  lemma MinuteOfDay(minute: nat)
    ensures minute % 60 == minute % 1440 % 60 && minute / 60 % 24 == minute % 1440 / 60
  {
    assert minute == 1440 * (minute / 1440) + minute % 1440;
    assert minute / 60 == 24 * (minute / 1440) + minute % 1440 / 60;
  }

  lemma RemainderOf(k: int, q: int, r: int)
    requires k == DAY && 0 <= r < k
    ensures (k * q + r) / k == q && (k * q + r) % k == r
  {}

  /** In terms of the local clock: it shows a whole minute at a cron slot, whose minute, hour, day, month and
      weekday each are in the set of their field; and from now up to the slot every whole minute misses one. */
  lemma CronSlotFields(d: Definition, now: Instant)
    requires d.scheduleType == "cron" && Due(d, now)
    ensures Parsed(d.expression.value).Ok? && InRange(Slot(d, now) + SECOND * d.offset)
    ensures var e := Parsed(d.expression.value).value;
            var m := MomentOf(Slot(d, now) + SECOND * d.offset);
            && m.minute in e.minutes && m.hour in e.hours && m.date.day in e.days && m.date.month in e.months
            && DayOf(m.date) % 7 in e.weekdays && m.second == 0 && m.us == 0
    ensures var e := Parsed(d.expression.value).value;
            forall t: Instant :: now <= t - SECOND * d.offset < Slot(d, now) && MomentOf(t).second == 0 && MomentOf(t).us == 0 ==>
              var m := MomentOf(t);
              m.minute !in e.minutes || m.hour !in e.hours || m.date.day !in e.days || m.date.month !in e.months || DayOf(m.date) % 7 !in e.weekdays
  {
    hide Matches, Parsed, MomentOf;
    var e := Parsed(d.expression.value).value;
    var slot := Slot(d, now) + SECOND * d.offset;
    CronSlotIsNext(d, now);
    MinuteMultiple(slot / MINUTE);
    MatchesShown(e, slot / MINUTE);
    forall t: Instant | now <= t - SECOND * d.offset < Slot(d, now) && MomentOf(t).second == 0 && MomentOf(t).us == 0
      ensures var m := MomentOf(t);
              m.minute !in e.minutes || m.hour !in e.hours || m.date.day !in e.days || m.date.month !in e.months || DayOf(m.date) % 7 !in e.weekdays
    {
      WholeMinute(t);
      MatchesShown(e, t / MINUTE);
      assert !Hit(e)(t / MINUTE);
    }
  }

  lemma WholeMinute(t: Instant)
    requires MomentOf(t).second == 0 && MomentOf(t).us == 0
    ensures t == MINUTE * (t / MINUTE)
  {
    ValueOfMoment(t);
    var m := MomentOf(t);
    hide MomentOf, DayOf;
    var k := 1440 * DayOf(m.date) + 60 * m.hour + m.minute;
    assert t == MINUTE * k;
  }

  lemma MinuteMultiple(m: nat)
    ensures (MINUTE * m) % MINUTE == 0 && (MINUTE * m) / MINUTE == m
  {}

  /** Neither the time nor a slot within 366 days of it leaves the years that a `datetime` can hold. */
  predicate Roomy(d: Definition, now: Instant) {
    var local := now + SECOND * d.offset;
    InRange(local) && now + 366 * DAY <= END_OF_TIME && local + 366 * DAY <= END_OF_TIME
  }

  lemma CronDueIff(d: Definition, now: Instant)
    requires d.scheduleType == "cron" && d.expression.Some? && Parsed(d.expression.value).Ok? && Roomy(d, now)
    ensures Due(d, now) <==> NextMatch(Parsed(d.expression.value).value, CeilMinute(now + SECOND * d.offset)).Some?
  {
    hide Parsed, Matches;
    var local := now + SECOND * d.offset;
    var e := Parsed(d.expression.value).value;
    NextMatchIsLeast(e, CeilMinute(local));
    CeilMinuteBounds(local);
  }

  /** A cron schedule is due at every time that leaves 366 days of years to search, iff every 366 days in a
      row of one calendar cycle hold a day that its expression admits. */
  lemma CronAlwaysDueIff(d: Definition)
    requires d.scheduleType == "cron" && d.expression.Some? && Parsed(d.expression.value).Ok?
    requires -86_400 < d.offset < 86_400
    ensures (forall now: Instant :: Roomy(d, now) ==> Due(d, now)) <==> Covers(Parsed(d.expression.value).value)
  {
    hide Parsed, Matches, Covers, Covered, Due;
    var e := Parsed(d.expression.value).value;
    ParsedIsWellFormed(d.expression.value);
    SearchSucceedsIff(e);
    if Covers(e) {
      forall now: Instant | Roomy(d, now)
        ensures Due(d, now)
      {
        CronDueIff(d, now);
      }
    } else {
      var n := UncoveredDay(e);
      var now: Instant := DAY * (n + CYCLE) - SECOND * d.offset;
      CeilMinuteExact(1440 * (n + CYCLE));
      CronDueIff(d, now);
      assert Roomy(d, now) && !Due(d, now);
    }
  }

  lemma UncoveredDay(e: Expression) returns (n: nat)
    requires !Covers(e)
    ensures n < CYCLE && NextMatch(e, 1440 * (n + CYCLE)).None?
  {
    n :| n < CYCLE && !Covered(e, n);
    CoveredCycle(e, n);
    UncoveredFails(e, n + CYCLE);
  }

  /** From now up to its slot, a cron schedule keeps the same slot. */
  lemma CronSlotConstant(d: Definition, now: Instant, later: Instant)
    requires d.scheduleType == "cron" && Due(d, now) && now <= later <= Slot(d, now)
    ensures ScheduledFor(d, later) == ScheduledFor(d, now)
  {
    hide Matches, Parsed;
    var local := now + SECOND * d.offset;
    var e := Parsed(d.expression.value).value;
    var m := NextMatch(e, CeilMinute(local)).value;
    CeilMinuteMonotone(local, later + SECOND * d.offset);
    CeilMinuteMonotone(later + SECOND * d.offset, MINUTE * m);
    CeilMinuteExact(m);
    NextMatchConstant(e, CeilMinute(local), CeilMinute(later + SECOND * d.offset));
  }

  lemma CeilMinuteExact(m: nat)
    ensures CeilMinute(MINUTE * m) == m
  {}

  /** An interval slot is the last multiple of the interval since 1970, at or before now. */
  lemma IntervalSlotIsLast(d: Definition, now: Instant)
    requires d.scheduleType == "interval" && Due(d, now) && d.intervalSeconds.value > 0 && now >= EPOCH
    ensures var n := SECOND * d.intervalSeconds.value;
            Slot(d, now) <= now < Slot(d, now) + n && EPOCH <= Slot(d, now)
    ensures exists k :: Slot(d, now) == EPOCH + SECOND * (d.intervalSeconds.value * k)
  {
    var n := d.intervalSeconds.value;
    var elapsed := WholeSeconds(now - EPOCH);
    WholeSecondsBounds(now - EPOCH);
    FloorDivision(elapsed, n);
    assert Slot(d, now) == EPOCH + SECOND * (n * (elapsed / n));
  }

  /** A one-shot schedule is due from its time on, and its slot is that time. */
  lemma OneShotDueIff(d: Definition, now: Instant)
    requires d.scheduleType == "one_shot" && d.at.Some? && InRange(now + SECOND * d.offset)
    ensures Due(d, now) <==> d.at.value <= now
    ensures Due(d, now) ==> Slot(d, now) == d.at.value
  {}

  /** An interval schedule is always due: its slot is a whole number of intervals away from 1970, and less than
      one interval before now, or after it for a negative interval; before 1970 rounding adds up to a second.
      It fails only where that leaves the years of a `datetime`, which a positive interval from 1970 on never does. */
  lemma IntervalDueIff(d: Definition, now: Instant)
    requires d.scheduleType == "interval" && d.intervalSeconds.Some? && d.intervalSeconds.value != 0 && InRange(now + SECOND * d.offset)
    ensures exists k: int ::
              var slot := EPOCH + SECOND * (d.intervalSeconds.value * k);
              && (Due(d, now) <==> InRange(slot)) && (Due(d, now) ==> Slot(d, now) == slot)
              && AroundNow(slot, now, d.intervalSeconds.value)
    ensures d.intervalSeconds.value > 0 && now >= EPOCH ==> Due(d, now)
  {
    var n := d.intervalSeconds.value;
    var elapsed := WholeSeconds(now - EPOCH);
    SecondsAround(now - EPOCH);
    var k := IntervalFactor(elapsed, n);
    assert IntervalSlot(now, n) == EPOCH + SECOND * (n * k);
    assert AroundNow(EPOCH + SECOND * (n * k), now, n);
    if n > 0 && now >= EPOCH { FloorDivision(elapsed, n); }
  }

  /** Within one interval of now. */
  predicate AroundNow(slot: int, now: Instant, n: int) {
    && slot - SECOND < now + (if n < 0 then SECOND * -n else 0)
    && now < slot + SECOND * (if n > 0 then n else 1)
    && (now >= EPOCH && n > 0 ==> slot <= now)
  }

  lemma SecondsAround(us: int)
    ensures SECOND * WholeSeconds(us) - SECOND < us < SECOND * WholeSeconds(us) + SECOND
    ensures us >= 0 ==> SECOND * WholeSeconds(us) <= us
    ensures us < 0 ==> us <= SECOND * WholeSeconds(us)
  {}

  lemma IntervalFactor(elapsed: int, n: int) returns (k: int)
    requires n != 0
    ensures elapsed - FloorMod(elapsed, n) == n * k
    ensures n > 0 ==> elapsed - n < n * k <= elapsed
    ensures n < 0 ==> elapsed <= n * k < elapsed - n
  {
    if n > 0 {
      FloorDivision(elapsed, n);
      k := elapsed / n;
    } else {
      FloorDivision(-elapsed, -n);
      k := (-elapsed) / (-n);
    }
  }

  /** Only a one-shot schedule can be not due: before its time. */
  lemma NotDueIff(d: Definition, now: Instant)
    ensures ScheduledFor(d, now) == Ok(None) <==>
            d.scheduleType == "one_shot" && InRange(now + SECOND * d.offset) && d.at.Some? && now < d.at.value
  {
    hide NextMatch, Parsed, IntervalSlot;
  }

  lemma WholeSecondsBounds(us: nat)
    ensures SECOND * WholeSeconds(us) <= us < SECOND * WholeSeconds(us) + SECOND
  {}

  lemma FloorDivision(a: int, n: int)
    requires n > 0
    ensures a - a % n == n * (a / n) && 0 <= a % n < n
    ensures a >= 0 ==> n * (a / n) >= 0
  {
    if a >= 0 { assert a / n >= 0; }
  }

  lemma WholeSecondsMonotone(a: int, b: int)
    requires a <= b
    ensures WholeSeconds(a) <= WholeSeconds(b)
  {}

  /** Rounding down to a multiple is monotone. */
  lemma RoundDownMonotone(a: int, b: int, n: int)
    requires n > 0 && a <= b
    ensures a - a % n <= b - b % n
  {
    FloorDivision(a, n); FloorDivision(b, n);
    if a / n > b / n {
      MulMonotone(n, b / n + 1, a / n);
    }
  }

  lemma MulMonotone(n: int, x: int, y: int)
    requires n > 0 && x <= y
    ensures n * x <= n * y
  {}

  lemma IntervalSlotMonotone(a: Instant, b: Instant, n: int)
    requires n != 0 && a <= b
    ensures IntervalSlot(a, n) <= IntervalSlot(b, n)
  {
    var x, y := WholeSeconds(a - EPOCH), WholeSeconds(b - EPOCH);
    WholeSecondsMonotone(a - EPOCH, b - EPOCH);
    if n > 0 {
      RoundDownMonotone(x, y, n);
    } else {
      RoundDownMonotone(-y, -x, -n);
    }
  }

  /** Later times never belong to earlier slots, whatever the schedule's type. */
  lemma SlotMonotone(d: Definition, a: Instant, b: Instant)
    requires a <= b && Due(d, a) && Due(d, b)
    ensures Slot(d, a) <= Slot(d, b)
  {
    hide Matches, Parsed, IntervalSlot;
    if d.scheduleType == "interval" {
      IntervalSlotMonotone(a, b, d.intervalSeconds.value);
    } else if d.scheduleType == "cron" {
      CeilMinuteMonotone(a + SECOND * d.offset, b + SECOND * d.offset);
      NextMatchMonotone(Parsed(d.expression.value).value, CeilMinute(a + SECOND * d.offset), CeilMinute(b + SECOND * d.offset));
    }
  }

  // ---------------------------------------------------------------- payloads

  datatype Json = Text(text: string) | Null | Flag(flag: bool)
  type Payload = map<string, Json>

  function OrNull(s: Option<string>): Json {
    match s case None => Null case Some(t) => Text(t)
  }

  /** The reviewed inputs that producer and worker must agree on. */
  function Expected(d: Definition): Payload {
    map["kind" := Text("scheduled_agent"),
        "schedule_id" := Text(d.id),
        "schedule_version" := Text(d.version),
        "agent" := Text(d.agent),
        "permissions_mode" := Text(d.permissionsMode),
        "query" := OrNull(d.query),
        "order_id" := OrNull(d.orderId),
        "allow_external_processing" := Flag(d.allowExternal)]
  }

  function BuildPayload(d: Definition, at: Instant): Payload {
    Expected(d)["scheduled_at" := Text(Iso(at))]
  }

  /** `validate_schedule_job_payload`: the time the job was queued for, or a refusal. */
  function ValidatePayload(p: Payload, d: Definition): (r: Result<Instant>) {
    if p.Keys != Expected(d).Keys + {"scheduled_at"} || exists k <- Expected(d) :: p[k] != Expected(d)[k] then Error
    else
      match p["scheduled_at"]
      case Text(s) =>
        (match if |s| > 64 then None else ParseIso(s)
         case None => Error
         case Some(t) => Ok(t))
      case _ => Error
  }

  /** What a producer builds a worker with the same definition accepts, and it reads the same time. */
  lemma PayloadRoundTrip(d: Definition, at: Instant)
    ensures ValidatePayload(BuildPayload(d, at), d) == Ok(at)
  {
    hide Iso, ParseIso;
    var p := BuildPayload(d, at);
    IsoRoundTrip(at);
    IsoLength(at);
    assert p["scheduled_at"] == Text(Iso(at));
    assert p.Keys == Expected(d).Keys + {"scheduled_at"};
    assert forall k <- Expected(d) :: p[k] == Expected(d)[k];
  }

  lemma IsoLength(at: Instant)
    ensures |Iso(at)| <= 32
  {
    PrintShape(MomentOf(at));
  }

  /** A worker accepts only payloads whose every field but the time is the reviewed one. */
  lemma AcceptedPayload(p: Payload, d: Definition, at: Instant)
    requires ValidatePayload(p, d) == Ok(at)
    ensures exists s :: ParseIso(s) == Some(at) && p == Expected(d)["scheduled_at" := Text(s)]
  {
    hide ParseIso;
    var s := p["scheduled_at"].text;
    var q := Expected(d)["scheduled_at" := Text(s)];
    assert p.Keys == q.Keys;
    forall k | k in p ensures p[k] == q[k] {}
    assert p == q;
  }

  /** Two definitions accept a common payload only if they agree in id, version, agent, permissions, query,
      order id and consent; and then they accept the same payloads, for the same times. */
  lemma PayloadsAgreeIff(d: Definition, e: Definition)
    ensures (exists p :: ValidatePayload(p, d).Ok? && ValidatePayload(p, e).Ok?) <==>
            && d.id == e.id && d.version == e.version && d.agent == e.agent && d.permissionsMode == e.permissionsMode
            && d.query == e.query && d.orderId == e.orderId && d.allowExternal == e.allowExternal
    ensures (exists p :: ValidatePayload(p, d).Ok? && ValidatePayload(p, e).Ok?) ==>
              forall p :: ValidatePayload(p, d) == ValidatePayload(p, e)
  {
    hide ValidatePayload, Expected;
    if p :| ValidatePayload(p, d).Ok? && ValidatePayload(p, e).Ok? {
      FieldsOfAccepted(p, d);
      FieldsOfAccepted(p, e);
    }
    if d.id == e.id && d.version == e.version && d.agent == e.agent && d.permissionsMode == e.permissionsMode
       && d.query == e.query && d.orderId == e.orderId && d.allowExternal == e.allowExternal {
      PayloadRoundTrip(d, EPOCH);
      forall p ensures ValidatePayload(p, d) == ValidatePayload(p, e) { SameInputs(p, d, e); }
    }
  }

  lemma SameInputs(p: Payload, d: Definition, e: Definition)
    requires d.id == e.id && d.version == e.version && d.agent == e.agent && d.permissionsMode == e.permissionsMode
    requires d.query == e.query && d.orderId == e.orderId && d.allowExternal == e.allowExternal
    ensures ValidatePayload(p, d) == ValidatePayload(p, e)
  {
    assert Expected(d) == Expected(e);
  }

  lemma FieldsOfAccepted(p: Payload, d: Definition)
    requires ValidatePayload(p, d).Ok?
    ensures p.Keys == {"kind", "schedule_id", "schedule_version", "agent", "permissions_mode", "query", "order_id",
                       "allow_external_processing", "scheduled_at"}
    ensures p["kind"] == Text("scheduled_agent") && p["schedule_id"] == Text(d.id) && p["schedule_version"] == Text(d.version) && p["agent"] == Text(d.agent)
    ensures p["permissions_mode"] == Text(d.permissionsMode) && p["query"] == OrNull(d.query) && p["order_id"] == OrNull(d.orderId)
    ensures p["allow_external_processing"] == Flag(d.allowExternal)
  {
    hide ParseIso;
    forall k <- Expected(d) ensures p[k] == Expected(d)[k] {}
  }

  /** The key a producer marks a slot with. */
  function ProducerKey(d: Definition, now: Instant): Option<string> {
    if Due(d, now) then Some(RunKey(d.id, Slot(d, now))) else None
  }

  /** The key a worker claims for a job. */
  function WorkerKey(d: Definition, p: Payload): Option<string> {
    match ValidatePayload(p, d)
    case Error => None
    case Ok(at) => if Due(d, at) then Some(RunKey(d.id, Slot(d, at))) else None
  }

  /** The run key recomputed from a decoded job is the key its producer marked. */
  lemma KeysAgree(d: Definition, now: Instant)
    ensures WorkerKey(d, BuildPayload(d, now)) == ProducerKey(d, now)
  {
    PayloadRoundTrip(d, now);
  }
}
