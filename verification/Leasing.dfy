/** The worker side of the schedule queue: deliveries, leased run keys, and the steps of `_consume_job`.
    Each step performs at most one Redis command, so that the steps of all workers interleave freely. */
module Leasing {
  import opened IsoTime
  import opened Schedule
  import opened Cron

  /** Milliseconds of the Redis server's clock. */
  type Clock = nat

  const RETENTION: Clock := 86_400_000
  const MAX_KEY := 256

  /** The value of a run key. The token of `Completed` is history: Redis keeps the bare word. */
  datatype Held = Running(token: nat) | Completed(token: nat)
  datatype Entry = Entry(held: Held, until: Clock)

  /** Everything that ever happened to one claim; a claim's token is its position in the list. */
  datatype Claim = Claim(key: string, worker: nat, job: nat, at: Clock, until: Clock,
                         entered: Option<Clock>, done: Option<Clock>)

  /** Why a job may be acknowledged. A look at an occupied run key keeps its time and the claims as they were
      at that moment, as history. */
  datatype Reason =
    | OwnCompletion(token: nat)                                                      // the worker completed its claim
    | Occupied(token: nat, looked: Clock, completed: bool, seen: seq<Claim>)         // the key held this claim's value
    | Vanished(token: nat, looked: Clock, seen: seq<Claim>)                          // it did at SET NX, and then was gone
    | NotDue

  /** Where a worker is inside `_consume_job`. */
  datatype Worker =
    | Idle
    | Got(job: nat)
    | SawAbsent(job: nat, key: string, at: Instant)                              // first GET answered nil
    | Beaten(job: nat, key: string, token: nat)                                  // SET NX failed; second GET next
    | Owner(job: nat, key: string, at: Instant, token: nat)                      // claimed; trigger next
    | Executing(job: nat, key: string, token: nat)                               // inside the executor
    | Ran(job: nat, key: string, token: nat, recorded: string)                   // trigger returned; complete next
    | Deciding(job: nat, reason: Reason)                                         // XACK next
    | Stopped

  datatype Delivery = Delivery(worker: nat, at: Clock)
  datatype Ack = Ack(job: nat, worker: nat, reason: Reason)

  datatype State = State(
    runs: map<string, Entry>, claims: seq<Claim>, delivered: nat, pending: map<nat, Delivery>,
    workers: map<nat, Worker>, histories: map<nat, set<string>>, acks: seq<Ack>)

  const Empty := State(map[], [], 0, map[], map[], map[], [])

  /** `definition(w)` is the reviewed schedule that worker `w` loaded. */
  datatype Config = Config(definition: nat -> Definition, claimAfter: Clock)

  datatype Action =
    | Deliver(w: nat)
    | AutoClaim(w: nat, job: nat)
    | Get(w: nat)
    | SetNx(w: nat)
    | GetAgain(w: nat)
    | Enter(w: nat)
    | Leave(w: nat)
    | Complete(w: nat)
    | Acknowledge(w: nat)
    | Stop(w: nat)
    | Restart(w: nat)

  // ---------------------------------------------------------------- reading the state

  predicate Live(runs: map<string, Entry>, key: string, now: Clock) {
    key in runs && now < runs[key].until
  }

  function At(s: State, w: nat): Worker {
    if w in s.workers then s.workers[w] else Idle
  }

  function History(s: State, w: nat): set<string> {
    if w in s.histories then s.histories[w] else {}
  }

  function Moved(s: State, w: nat, pc: Worker): State {
    s.(workers := s.workers[w := pc])
  }

  /** max(60, min(max_runtime_seconds + 30, 86400)) seconds. */
  function LeaseOf(d: Definition): (ms: Clock)
    ensures 60_000 <= ms <= 86_400_000
  {
    var m := if d.maxRuntimeSeconds + 30 < 86_400 then d.maxRuntimeSeconds + 30 else 86_400;
    1000 * (if m > 60 then m else 60)
  }

  /** `trigger` leaves before it looks at the slot; a worker's scheduler is never paused. */
  predicate LeavesEarly(d: Definition, at: Instant) {
    d.permissionsMode != "read_only" || (d.expiresAt.Some? && at >= d.expiresAt.value)
  }

  /** Validation, slot and key computation, up to the first Redis command; `Error` for an exception. */
  function KeyOf(d: Definition, p: Payload): Result<Option<(string, Instant)>> {
    match ValidatePayload(p, d)
    case Error => Error
    case Ok(at) =>
      match ScheduledFor(d, at)
      case Error => Error
      case Ok(None) => Ok(None)
      case Ok(Some(slot)) => if |RunKey(d.id, slot)| > MAX_KEY then Error else Ok(Some((RunKey(d.id, slot), at)))
  }

  /** The key under which `trigger` records a job that is not due. */
  function RecordedNow(d: Definition, p: Payload): set<string> {
    match ValidatePayload(p, d) case Error => {} case Ok(at) => {RunKey(d.id, at)}
  }

  /** A worker goes on with its job, or stops. */
  predicate KeepsJob(pc: Worker, next: Worker) {
    next.Stopped? || (!pc.Idle? && !pc.Stopped? && !next.Idle? && next.job == pc.job)
  }

  /** Deliveries and acknowledgements are untouched, and so is every worker but `w`. */
  predicate OnlyWorkerMoves(s: State, t: State, w: nat) {
    KeepsJob(At(s, w), At(t, w)) && t.acks == s.acks && t.delivered == s.delivered && t.pending == s.pending && t.workers == s.workers[w := At(t, w)]
  }

  // ---------------------------------------------------------------- steps

  predicate Enabled(c: Config, s: State, a: Action, now: Clock, stream: seq<Payload>) {
    match a
    case Deliver(w) => At(s, w).Idle? && s.delivered < |stream|
    case AutoClaim(w, job) => At(s, w).Idle? && job in s.pending && now >= s.pending[job].at + c.claimAfter
    case Get(w) => At(s, w).Got? && At(s, w).job < |stream|
    case SetNx(w) => At(s, w).SawAbsent?
    case GetAgain(w) => At(s, w).Beaten?
    case Enter(w) => At(s, w).Owner?
    case Leave(w) => At(s, w).Executing?
    case Complete(w) => At(s, w).Ran?
    case Acknowledge(w) => At(s, w).Deciding?
    case Stop(w) => true
    case Restart(w) => At(s, w).Stopped?
  }

  /** `validate_schedule_job_payload`, `scheduled_for`, and the first GET of `claim_run`. */
  function GetStep(c: Config, s: State, w: nat, now: Clock, stream: seq<Payload>): (t: State)
    requires At(s, w).Got? && At(s, w).job < |stream|
    ensures OnlyWorkerMoves(s, t, w)
  {
    var job := At(s, w).job;
    match KeyOf(c.definition(w), stream[job])
    case Error => Moved(s, w, Stopped)
    case Ok(None) =>
      Moved(s, w, Deciding(job, NotDue)).(histories := s.histories[w := History(s, w) + RecordedNow(c.definition(w), stream[job])])
    case Ok(Some((key, at))) =>
      if Live(s.runs, key, now) then Moved(s, w, Deciding(job, Found(s, key, now))) else Moved(s, w, SawAbsent(job, key, at))
  }

  /** What a GET finds under a run key that is there. */
  function Found(s: State, key: string, now: Clock): Reason
    requires Live(s.runs, key, now)
  {
    Occupied(s.runs[key].held.token, now, s.runs[key].held.Completed?, s.claims)
  }

  /** The second GET of `claim_run`. Anything but the completion marker, nil included, counts as in progress. */
  function GetAgainStep(s: State, w: nat, now: Clock): (t: State)
    requires At(s, w).Beaten?
    ensures OnlyWorkerMoves(s, t, w)
  {
    var Beaten(job, key, token) := At(s, w);
    Moved(s, w, Deciding(job, if Live(s.runs, key, now) then Found(s, key, now) else Vanished(token, now, s.claims)))
  }

  /** SET NX EX of `claim_run`; the token is fresh. */
  function SetNxStep(c: Config, s: State, w: nat, now: Clock): (t: State)
    requires At(s, w).SawAbsent?
    ensures OnlyWorkerMoves(s, t, w)
  {
    var SawAbsent(job, key, at) := At(s, w);
    if Live(s.runs, key, now) then Moved(s, w, Beaten(job, key, s.runs[key].held.token))
    else
      var until := now + LeaseOf(c.definition(w));
      var token := |s.claims|;
      Moved(s, w, Owner(job, key, at, token))
        .(runs := s.runs[key := Entry(Running(token), until)],
          claims := s.claims + [Claim(key, w, job, now, until, None, None)])
  }

  /** History of a claim: its executor was entered, or it was completed, at this time. */
  function MarkEntered(claims: seq<Claim>, token: nat, now: Clock): seq<Claim> {
    if token < |claims| then claims[token := claims[token].(entered := Some(now))] else claims
  }

  function MarkDone(claims: seq<Claim>, token: nat, now: Clock): seq<Claim> {
    if token < |claims| then claims[token := claims[token].(done := Some(now))] else claims
  }

  /** `Scheduler.trigger` up to its executor call, or up to its return when it makes none. */
  function EnterStep(c: Config, s: State, w: nat, now: Clock): (t: State)
    requires At(s, w).Owner?
    ensures OnlyWorkerMoves(s, t, w)
  {
    var Owner(job, key, at, token) := At(s, w);
    var d := c.definition(w);
    if LeavesEarly(d, at) then
      Moved(s, w, Ran(job, key, token, RunKey(d.id, at)))
        .(histories := s.histories[w := History(s, w) + {RunKey(d.id, at)}])
    else if key in History(s, w) then Moved(s, w, Ran(job, key, token, key))
    else
      Moved(s, w, Executing(job, key, token))
        .(claims := MarkEntered(s.claims, token, now))
  }

  /** The compare-and-set script of `complete_run`; a mismatch raises. */
  function CompleteStep(s: State, w: nat, now: Clock): (t: State)
    requires At(s, w).Ran?
    ensures OnlyWorkerMoves(s, t, w)
  {
    var Ran(job, key, token, recorded) := At(s, w);
    if Live(s.runs, recorded, now) && s.runs[recorded].held == Running(token) then
      Moved(s, w, Deciding(job, OwnCompletion(token)))
        .(runs := s.runs[recorded := Entry(Completed(token), now + RETENTION)],
          claims := MarkDone(s.claims, token, now))
    else Moved(s, w, Stopped)
  }

  function Step(c: Config, s: State, a: Action, now: Clock, stream: seq<Payload>): State
    requires Enabled(c, s, a, now, stream)
  {
    match a
    case Deliver(w) =>
      Moved(s, w, Got(s.delivered)).(delivered := s.delivered + 1, pending := s.pending[s.delivered := Delivery(w, now)])
    case AutoClaim(w, job) => Moved(s, w, Got(job)).(pending := s.pending[job := Delivery(w, now)])
    case Get(w) => GetStep(c, s, w, now, stream)
    case SetNx(w) => SetNxStep(c, s, w, now)
    case GetAgain(w) => GetAgainStep(s, w, now)
    case Enter(w) => EnterStep(c, s, w, now)
    case Leave(w) =>
      var Executing(job, key, token) := At(s, w);
      Moved(s, w, Ran(job, key, token, key)).(histories := s.histories[w := History(s, w) + {key}])
    case Complete(w) => CompleteStep(s, w, now)
    case Acknowledge(w) =>
      Moved(s, w, Idle).(pending := s.pending - {At(s, w).job}, acks := s.acks + [Ack(At(s, w).job, w, At(s, w).reason)])
    // An exception, a lost reply or a crash ends the process at any point.
    case Stop(w) => Moved(s, w, Stopped)
    case Restart(w) => Moved(s, w, Idle).(histories := s.histories[w := {}])
  }

  // ---------------------------------------------------------------- invariant

  /** When a claim stops barring others: its lease, or the retention of its completion. */
  function Bars(c: Claim): Clock {
    match c.done case None => c.until case Some(d) => d + RETENTION
  }

  predicate ClaimOk(c: Claim, now: Clock) {
    && c.at <= now && c.at < c.until
    && (c.entered.Some? ==> c.at <= c.entered.value <= now)
    && (c.done.Some? ==> c.at <= c.done.value < c.until && c.done.value <= now)
    && (c.done.Some? && c.entered.Some? ==> c.entered.value <= c.done.value)
  }

  /** What Redis must hold for a claim that still bars others. */
  predicate Kept(runs: map<string, Entry>, c: Claim, token: nat, now: Clock) {
    now < Bars(c) ==> c.key in runs && runs[c.key] == Entry(if c.done.None? then Running(token) else Completed(token), Bars(c))
  }

  predicate EntryOk(claims: seq<Claim>, key: string, e: Entry) {
    && e.held.token < |claims| && claims[e.held.token].key == key
    && e.until == Bars(claims[e.held.token])
    && (e.held.Running? <==> claims[e.held.token].done.None?)
  }

  /** Later claims of a key start only after earlier ones stopped barring it. */
  predicate Separated(claims: seq<Claim>) {
    forall t, u :: 0 <= t < u < |claims| && claims[t].key == claims[u].key ==> Bars(claims[t]) <= claims[u].at
  }

  predicate ClaimsOk(s: State, now: Clock) {
    && (forall t :: 0 <= t < |s.claims| ==> ClaimOk(s.claims[t], now) && Kept(s.runs, s.claims[t], t, now))
    && (forall k <- s.runs :: EntryOk(s.claims, k, s.runs[k]))
    && Separated(s.claims)
  }

  predicate Holds(claims: seq<Claim>, token: nat, w: nat, job: nat, key: string) {
    && token < |claims| && claims[token].worker == w && claims[token].job == job
    && claims[token].key == key && claims[token].done.None?
  }

  /** The queued job is for the slot with this key, in the eyes of worker `w`. */
  predicate JobHasKey(c: Config, stream: seq<Payload>, w: nat, job: nat, key: string) {
    && job < |stream| && KeyOf(c.definition(w), stream[job]).Ok?
    && KeyOf(c.definition(w), stream[job]).value.Some? && KeyOf(c.definition(w), stream[job]).value.value.0 == key
  }

  /** Claims only gain facts: entered, done, or new ones at the end. */
  predicate Grown(claims: seq<Claim>, more: seq<Claim>) {
    && |claims| <= |more|
    && (forall t :: 0 <= t < |claims| ==>
          && more[t].key == claims[t].key && more[t].worker == claims[t].worker && more[t].job == claims[t].job
          && more[t].at == claims[t].at && more[t].until == claims[t].until
          && (claims[t].done.Some? ==> more[t].done == claims[t].done)
          && (claims[t].entered.Some? ==> more[t].entered == claims[t].entered))
  }

  /** Claims as they can be at some time. */
  predicate PastOk(seen: seq<Claim>, looked: Clock) {
    Separated(seen) && forall t :: 0 <= t < |seen| ==> ClaimOk(seen[t], looked)
  }

  /** What a look at a run key tells: the claim it found had not stopped barring others, and was completed
      exactly when the value said so; or none of the key's claims barred others any more. */
  predicate LookOk(seen: seq<Claim>, reason: Reason)
    requires reason.Occupied? || reason.Vanished?
  {
    && PastOk(seen, reason.looked) && reason.token < |seen|
    && match reason
       case Occupied(t, looked, completed, _) => (seen[t].done.Some? <==> completed) && looked < Bars(seen[t])
       case Vanished(t, looked, _) => forall u :: 0 <= u < |seen| && seen[u].key == seen[t].key ==> Bars(seen[u]) <= looked
  }

  /** Why a worker may acknowledge a job. */
  predicate Justified(c: Config, claims: seq<Claim>, stream: seq<Payload>, w: nat, job: nat, reason: Reason) {
    match reason
    case OwnCompletion(t) =>
      t < |claims| && claims[t].worker == w && claims[t].job == job && claims[t].done.Some? && JobHasKey(c, stream, w, job, claims[t].key)
    case Occupied(t, _, _, seen) => LookOk(seen, reason) && Grown(seen, claims) && JobHasKey(c, stream, w, job, seen[t].key)
    case Vanished(t, _, seen) => LookOk(seen, reason) && Grown(seen, claims) && JobHasKey(c, stream, w, job, seen[t].key)
    case NotDue => job < |stream| && KeyOf(c.definition(w), stream[job]) == Ok(None)
  }

  predicate WorkerOk(c: Config, claims: seq<Claim>, stream: seq<Payload>, w: nat, pc: Worker) {
    match pc
    case Got(job) => job < |stream|
    case SawAbsent(job, key, at) =>
      job < |stream| && KeyOf(c.definition(w), stream[job]) == Ok(Some((key, at)))
    case Beaten(job, key, t) => t < |claims| && claims[t].key == key && JobHasKey(c, stream, w, job, key)
    case Owner(job, key, at, t) =>
      && Holds(claims, t, w, job, key) && claims[t].entered.None?
      && job < |stream| && KeyOf(c.definition(w), stream[job]) == Ok(Some((key, at)))
    case Executing(job, key, t) => Holds(claims, t, w, job, key) && JobHasKey(c, stream, w, job, key)
    case Ran(job, key, t, _) => Holds(claims, t, w, job, key) && JobHasKey(c, stream, w, job, key)
    case Deciding(job, reason) => Justified(c, claims, stream, w, job, reason)
    case _ => true
  }

  /** A worker only has jobs that were delivered. */
  predicate HasDelivered(pc: Worker, delivered: nat) {
    !pc.Idle? && !pc.Stopped? ==> pc.job < delivered
  }

  predicate WorkersOk(c: Config, s: State, stream: seq<Payload>) {
    && (forall w <- s.workers :: WorkerOk(c, s.claims, stream, w, s.workers[w]))
    && (forall i :: 0 <= i < |s.acks| ==> Justified(c, s.claims, stream, s.acks[i].worker, s.acks[i].job, s.acks[i].reason))
    && s.delivered <= |stream|
    && (forall j <- s.pending :: j < s.delivered)
    && (forall w <- s.workers :: HasDelivered(s.workers[w], s.delivered))
  }

  predicate Inv(c: Config, s: State, now: Clock, stream: seq<Payload>) {
    ClaimsOk(s, now) && WorkersOk(c, s, stream)
  }

  // ---------------------------------------------------------------- preservation

  /** Time passes and the stream grows. */
  lemma Later(c: Config, s: State, now: Clock, now': Clock, stream: seq<Payload>, stream': seq<Payload>)
    requires Inv(c, s, now, stream) && now <= now' && stream <= stream'
    ensures Inv(c, s, now', stream')
  {
    hide KeyOf;
  }

  /** A step that touches neither run keys nor claims. */
  lemma ClaimsSame(s: State, t: State, now: Clock)
    requires ClaimsOk(s, now) && t.runs == s.runs && t.claims == s.claims
    ensures ClaimsOk(t, now)
  {}

  lemma SetNxClaims(c: Config, s: State, w: nat, now: Clock)
    requires ClaimsOk(s, now) && At(s, w).SawAbsent?
    ensures ClaimsOk(SetNxStep(c, s, w, now), now)
  {
    var key := At(s, w).key;
    var t := SetNxStep(c, s, w, now);
    if !Live(s.runs, key, now) {
      forall i | 0 <= i < |s.claims| && s.claims[i].key == key
        ensures Bars(s.claims[i]) <= now
      {
        assert Kept(s.runs, s.claims[i], i, now);
      }
      forall i | 0 <= i < |t.claims|
        ensures ClaimOk(t.claims[i], now) && Kept(t.runs, t.claims[i], i, now)
      {
        if i < |s.claims| { assert ClaimOk(s.claims[i], now) && Kept(s.runs, s.claims[i], i, now); }
      }
      assert forall k <- s.runs :: EntryOk(s.claims, k, s.runs[k]);
    }
  }

  lemma EnterClaims(c: Config, s: State, w: nat, now: Clock)
    requires ClaimsOk(s, now) && At(s, w).Owner? && Holds(s.claims, At(s, w).token, w, At(s, w).job, At(s, w).key)
    ensures ClaimsOk(EnterStep(c, s, w, now), now)
  {
    hide RunKey;
    var t := EnterStep(c, s, w, now);
    forall i | 0 <= i < |t.claims|
      ensures ClaimOk(t.claims[i], now) && Kept(t.runs, t.claims[i], i, now)
    {
      assert ClaimOk(s.claims[i], now) && Kept(s.runs, s.claims[i], i, now);
    }
    assert forall k <- s.runs :: EntryOk(s.claims, k, s.runs[k]);
  }

  /** No claim of the same key follows one that still bars others. */
  lemma UnexpiredIsLast(s: State, token: nat, now: Clock)
    requires ClaimsOk(s, now) && token < |s.claims| && now < Bars(s.claims[token])
    ensures forall u :: token < u < |s.claims| ==> s.claims[u].key != s.claims[token].key
  {
    forall u | token < u < |s.claims|
      ensures s.claims[u].key != s.claims[token].key
    {
      assert ClaimOk(s.claims[u], now);
    }
  }

  lemma CompleteClaims(s: State, w: nat, now: Clock)
    requires ClaimsOk(s, now) && At(s, w).Ran? && Holds(s.claims, At(s, w).token, w, At(s, w).job, At(s, w).key)
    ensures ClaimsOk(CompleteStep(s, w, now), now)
  {
    var Ran(job, key, token, recorded) := At(s, w);
    if Live(s.runs, recorded, now) && s.runs[recorded].held == Running(token) {
      assert EntryOk(s.claims, recorded, s.runs[recorded]);
      CompletedOk(s, CompleteStep(s, w, now), token, now);
    }
  }

  /** The last claim of a key is completed while its lease runs. */
  lemma CompletedOk(s: State, t: State, token: nat, now: Clock)
    requires ClaimsOk(s, now) && token < |s.claims| && s.claims[token].done.None? && now < s.claims[token].until
    requires t.claims == s.claims[token := s.claims[token].(done := Some(now))]
    requires t.runs == s.runs[s.claims[token].key := Entry(Completed(token), now + RETENTION)]
    ensures ClaimsOk(t, now)
  {
    UnexpiredIsLast(s, token, now);
    CompletedSeparated(s.claims, token, now);
    forall i | 0 <= i < |t.claims|
      ensures ClaimOk(t.claims[i], now) && Kept(t.runs, t.claims[i], i, now)
    {
      assert ClaimOk(s.claims[i], now) && Kept(s.runs, s.claims[i], i, now);
    }
    forall k | k in t.runs
      ensures EntryOk(t.claims, k, t.runs[k])
    {
      if k != s.claims[token].key { assert EntryOk(s.claims, k, s.runs[k]); }
    }
  }

  lemma CompletedSeparated(claims: seq<Claim>, token: nat, now: Clock)
    requires Separated(claims) && token < |claims|
    requires forall u :: token < u < |claims| ==> claims[u].key != claims[token].key
    ensures Separated(claims[token := claims[token].(done := Some(now))])
  {}

  lemma JustifiedGrows(c: Config, claims: seq<Claim>, more: seq<Claim>, stream: seq<Payload>, w: nat, job: nat, reason: Reason)
    requires Grown(claims, more) && Justified(c, claims, stream, w, job, reason)
    ensures Justified(c, more, stream, w, job, reason)
  {
    hide KeyOf, LookOk, JobHasKey;
    if reason.Occupied? || reason.Vanished? { GrownMore(reason.seen, claims, more); }
  }

  lemma GrownMore(a: seq<Claim>, b: seq<Claim>, c: seq<Claim>)
    requires Grown(a, b) && Grown(b, c)
    ensures Grown(a, c)
  {}

  /** One claim is entered or completed; the other workers' claims are untouched. */
  lemma OthersOk(c: Config, claims: seq<Claim>, more: seq<Claim>, stream: seq<Payload>, w: nat, v: nat, pc: Worker)
    requires Grown(claims, more) && v != w && WorkerOk(c, claims, stream, v, pc)
    requires forall t :: 0 <= t < |claims| && claims[t].worker != w ==> more[t] == claims[t]
    ensures WorkerOk(c, more, stream, v, pc)
  {
    hide KeyOf;
  }

  lemma WorkersStep(c: Config, s: State, t: State, stream: seq<Payload>, w: nat, acked: seq<Ack>)
    requires WorkersOk(c, s, stream) && Grown(s.claims, t.claims)
    requires forall i :: 0 <= i < |s.claims| && s.claims[i].worker != w ==> t.claims[i] == s.claims[i]
    requires t.workers == s.workers[w := At(t, w)] && WorkerOk(c, t.claims, stream, w, At(t, w))
    requires t.acks == s.acks + acked
    requires forall a <- acked :: a.worker == w && Justified(c, s.claims, stream, w, a.job, a.reason)
    requires t.delivered <= |stream| && forall j <- t.pending :: j < t.delivered
    requires forall v <- t.workers :: HasDelivered(t.workers[v], t.delivered)
    ensures WorkersOk(c, t, stream)
  {
    hide KeyOf, WorkerOk, Justified, HasDelivered;
    forall v | v in t.workers
      ensures WorkerOk(c, t.claims, stream, v, t.workers[v])
    {
      if v != w { OthersOk(c, s.claims, t.claims, stream, w, v, s.workers[v]); }
    }
    forall i | 0 <= i < |t.acks|
      ensures Justified(c, t.claims, stream, t.acks[i].worker, t.acks[i].job, t.acks[i].reason)
    {
      if i < |s.acks| { assert t.acks[i] == s.acks[i]; } else { assert t.acks[i] in acked; }
      JustifiedGrows(c, s.claims, t.claims, stream, t.acks[i].worker, t.acks[i].job, t.acks[i].reason);
    }
  }

  lemma StepClaims(c: Config, s: State, a: Action, now: Clock, stream: seq<Payload>)
    requires Inv(c, s, now, stream) && Enabled(c, s, a, now, stream)
    ensures ClaimsOk(Step(c, s, a, now, stream), now)
  {
    hide KeyOf, ClaimsOk, SetNxStep, EnterStep, CompleteStep, RunKey;
    if a.w in s.workers { assert WorkerOk(c, s.claims, stream, a.w, s.workers[a.w]); }
    match a
    case SetNx(w) => SetNxClaims(c, s, w, now);
    case Enter(w) => EnterClaims(c, s, w, now);
    case Complete(w) => CompleteClaims(s, w, now);
    case _ => ClaimsSame(s, Step(c, s, a, now, stream), now);
  }

  /** Where a step leaves the worker that takes it. */
  lemma StepWorker(c: Config, s: State, a: Action, now: Clock, stream: seq<Payload>)
    requires Inv(c, s, now, stream) && Enabled(c, s, a, now, stream)
    ensures var t := Step(c, s, a, now, stream);
            && Grown(s.claims, t.claims)
            && (forall i :: 0 <= i < |s.claims| && s.claims[i].worker != a.w ==> t.claims[i] == s.claims[i])
            && WorkerOk(c, t.claims, stream, a.w, At(t, a.w))
  {
    hide RunKey, LeavesEarly, KeyOf, GetStep, GetAgainStep, SetNxStep, EnterStep, CompleteStep, Justified, ClaimsOk, JobHasKey, Holds;
    if a.w in s.workers { assert WorkerOk(c, s.claims, stream, a.w, s.workers[a.w]); }
    match a
    case Get(w) => GetWorker(c, s, w, now, stream);
    case SetNx(w) => SetNxWorker(c, s, w, now, stream);
    case Enter(w) => EnterWorker(c, s, w, now, stream);
    case Complete(w) => CompleteWorker(c, s, w, now, stream);
    case GetAgain(w) => GetAgainWorker(c, s, w, now, stream);
    case _ =>
  }

  /** A look at a live key. */
  lemma FoundOk(s: State, key: string, now: Clock)
    requires ClaimsOk(s, now) && Live(s.runs, key, now)
    ensures LookOk(s.claims, Found(s, key, now)) && Grown(s.claims, s.claims) && s.claims[Found(s, key, now).token].key == key
  {
    assert EntryOk(s.claims, key, s.runs[key]);
  }

  lemma VanishedOk(s: State, key: string, t: nat, now: Clock)
    requires ClaimsOk(s, now) && !Live(s.runs, key, now) && t < |s.claims| && s.claims[t].key == key
    ensures LookOk(s.claims, Vanished(t, now, s.claims)) && Grown(s.claims, s.claims)
  {
    forall u | 0 <= u < |s.claims| && s.claims[u].key == key
      ensures Bars(s.claims[u]) <= now
    {
      assert Kept(s.runs, s.claims[u], u, now);
    }
  }

  lemma GetAgainWorker(c: Config, s: State, w: nat, now: Clock, stream: seq<Payload>)
    requires ClaimsOk(s, now) && At(s, w).Beaten? && WorkerOk(c, s.claims, stream, w, At(s, w))
    ensures var t := GetAgainStep(s, w, now);
            && t.claims == s.claims && Grown(s.claims, t.claims) && WorkerOk(c, t.claims, stream, w, At(t, w))
  {
    hide KeyOf, ClaimsOk, LookOk, JobHasKey;
    var Beaten(job, key, token) := At(s, w);
    if Live(s.runs, key, now) { FoundOk(s, key, now); } else { VanishedOk(s, key, token, now); }
  }

  lemma StepBookkeeping(c: Config, s: State, a: Action, now: Clock, stream: seq<Payload>)
    requires WorkersOk(c, s, stream) && Enabled(c, s, a, now, stream)
    ensures var t := Step(c, s, a, now, stream);
            && t.workers == s.workers[a.w := At(t, a.w)]
            && t.delivered <= |stream| && (forall j <- t.pending :: j < t.delivered)
            && (forall v <- t.workers :: HasDelivered(t.workers[v], t.delivered))
            && t.acks == s.acks + (if a.Acknowledge? then [Ack(At(s, a.w).job, a.w, At(s, a.w).reason)] else [])
  {
    hide RunKey, LeavesEarly, KeyOf, WorkerOk, Justified, GetStep, GetAgainStep, SetNxStep, EnterStep, CompleteStep;
  }

  lemma EnterWorker(c: Config, s: State, w: nat, now: Clock, stream: seq<Payload>)
    requires At(s, w).Owner? && WorkerOk(c, s.claims, stream, w, At(s, w))
    ensures var t := EnterStep(c, s, w, now);
            && WorkerOk(c, t.claims, stream, w, At(t, w)) && Grown(s.claims, t.claims)
            && (forall i :: 0 <= i < |s.claims| && s.claims[i].worker != w ==> t.claims[i] == s.claims[i])
  {
    hide KeyOf, RunKey, LeavesEarly;
  }

  lemma GetWorker(c: Config, s: State, w: nat, now: Clock, stream: seq<Payload>)
    requires ClaimsOk(s, now) && At(s, w).Got? && At(s, w).job < |stream|
    ensures var t := GetStep(c, s, w, now, stream);
            t.claims == s.claims && WorkerOk(c, t.claims, stream, w, At(t, w))
  {
    hide KeyOf, ClaimsOk, LookOk;
    var k := KeyOf(c.definition(w), stream[At(s, w).job]);
    if k.Ok? && k.value.Some? && Live(s.runs, k.value.value.0, now) {
      FoundOk(s, k.value.value.0, now);
    }
  }

  lemma SetNxWorker(c: Config, s: State, w: nat, now: Clock, stream: seq<Payload>)
    requires ClaimsOk(s, now) && At(s, w).SawAbsent? && WorkerOk(c, s.claims, stream, w, At(s, w))
    ensures var t := SetNxStep(c, s, w, now);
            && WorkerOk(c, t.claims, stream, w, At(t, w)) && Grown(s.claims, t.claims)
            && (forall i :: 0 <= i < |s.claims| ==> t.claims[i] == s.claims[i])
  {
    hide KeyOf, Separated;
    var key := At(s, w).key;
    if Live(s.runs, key, now) { assert EntryOk(s.claims, key, s.runs[key]); }
  }

  lemma CompleteWorker(c: Config, s: State, w: nat, now: Clock, stream: seq<Payload>)
    requires ClaimsOk(s, now) && At(s, w).Ran? && WorkerOk(c, s.claims, stream, w, At(s, w))
    ensures var t := CompleteStep(s, w, now);
            && WorkerOk(c, t.claims, stream, w, At(t, w)) && Grown(s.claims, t.claims)
            && (forall i :: 0 <= i < |s.claims| && s.claims[i].worker != w ==> t.claims[i] == s.claims[i])
  {
    hide KeyOf, Separated;
  }

  /** Every step of every worker keeps the invariant. */
  lemma StepInv(c: Config, s: State, a: Action, now: Clock, stream: seq<Payload>)
    requires Inv(c, s, now, stream) && Enabled(c, s, a, now, stream)
    ensures Inv(c, Step(c, s, a, now, stream), now, stream)
  {
    hide KeyOf, ClaimsOk, WorkersOk, Step, WorkerOk, Enabled;
    StepClaims(c, s, a, now, stream);
    StepWorker(c, s, a, now, stream);
    StepBookkeeping(c, s, a, now, stream);
    AckJustified(c, s, a, now, stream);
    WorkersStep(c, s, Step(c, s, a, now, stream), stream, a.w,
                if a.Acknowledge? then [Ack(At(s, a.w).job, a.w, At(s, a.w).reason)] else []);
  }

  lemma AckJustified(c: Config, s: State, a: Action, now: Clock, stream: seq<Payload>)
    requires WorkersOk(c, s, stream) && Enabled(c, s, a, now, stream)
    ensures a.Acknowledge? ==> At(s, a.w).Deciding? && Justified(c, s.claims, stream, a.w, At(s, a.w).job, At(s, a.w).reason)
  {
    hide KeyOf, Justified;
    if a.Acknowledge? { assert WorkerOk(c, s.claims, stream, a.w, s.workers[a.w]); }
  }

  // ---------------------------------------------------------------- what a claim may do

  /** A job has a key exactly if its payload is accepted, its slot is due at the payload's time, and the key
      is short enough; the worker goes on without one exactly if the slot lies ahead of that time. */
  lemma KeyOfIff(d: Definition, p: Payload, key: string, at: Instant)
    ensures KeyOf(d, p) == Ok(Some((key, at))) <==>
            ValidatePayload(p, d) == Ok(at) && Due(d, at) && key == RunKey(d.id, Slot(d, at)) && |key| <= 256
    ensures KeyOf(d, p) == Ok(None) <==>
            && ValidatePayload(p, d).Ok?
            && d.scheduleType == "one_shot" && InRange(ValidatePayload(p, d).value + SECOND * d.offset)
            && d.at.Some? && ValidatePayload(p, d).value < d.at.value
  {
    hide RunKey, ValidatePayload;
    if ValidatePayload(p, d).Ok? { NotDueIff(d, ValidatePayload(p, d).value); }
    hide ScheduledFor;
  }

  /** A claim has the lease of its worker's definition; it is entered only for an accepted job, whose key it
      has, and under a definition that only reads and had not expired at the job's time. */
  predicate ClaimLawful(c: Config, stream: seq<Payload>, k: Claim) {
    var d := c.definition(k.worker);
    && k.until == k.at + LeaseOf(d)
    && (k.entered.Some? ==>
          && k.job < |stream| && KeyOf(d, stream[k.job]).Ok? && KeyOf(d, stream[k.job]).value.Some?
          && KeyOf(d, stream[k.job]).value.value.0 == k.key
          && d.permissionsMode == "read_only"
          && (d.expiresAt.Some? ==> KeyOf(d, stream[k.job]).value.value.1 < d.expiresAt.value))
  }

  predicate Lawful(c: Config, claims: seq<Claim>, stream: seq<Payload>) {
    forall t :: 0 <= t < |claims| ==> ClaimLawful(c, stream, claims[t])
  }

  lemma LawfulLater(c: Config, claims: seq<Claim>, stream: seq<Payload>, more: seq<Payload>)
    requires Lawful(c, claims, stream) && stream <= more
    ensures Lawful(c, claims, more)
  {
    hide KeyOf, LeaseOf;
  }

  lemma StepLawful(c: Config, s: State, a: Action, now: Clock, stream: seq<Payload>)
    requires Inv(c, s, now, stream) && Enabled(c, s, a, now, stream) && Lawful(c, s.claims, stream)
    ensures Lawful(c, Step(c, s, a, now, stream).claims, stream)
  {
    hide KeyOf, LeaseOf, RunKey, ClaimsOk, Justified, JobHasKey, Found;
    if a.w in s.workers { assert WorkerOk(c, s.claims, stream, a.w, s.workers[a.w]); }
  }
}
