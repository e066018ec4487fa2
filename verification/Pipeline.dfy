/** Producers, Redis and workers together: what holds in every interleaving of their commands, of crashes
    and of the passing of time. */
module Pipeline {
  import opened IsoTime
  import opened Schedule
  import opened Cron
  import Marking
  import Leasing

  type Clock = nat

  /** Which definition each producer and each worker process loaded, and the redelivery timeout. */
  datatype System = System(producers: nat -> Definition, workers: Leasing.Config)

  datatype State = State(now: Clock, p: Marking.State, w: Leasing.State)

  const Initial := State(0, Marking.Empty, Leasing.Empty)

  datatype Action = Tick(ms: nat) | Produce(a: Marking.Action) | Work(b: Leasing.Action)

  predicate Enabled(sys: System, s: State, a: Action) {
    match a
    case Tick(_) => true
    case Produce(b) => Marking.Enabled(s.p, b)
    case Work(b) => Leasing.Enabled(sys.workers, s.w, b, s.now, s.p.stream)
  }

  function Step(sys: System, s: State, a: Action): State
    requires Enabled(sys, s, a)
  {
    match a
    case Tick(ms) => s.(now := s.now + ms)
    case Produce(b) => s.(p := Marking.Step(sys.producers, s.p, b, s.now))
    case Work(b) => s.(w := Leasing.Step(sys.workers, s.w, b, s.now, s.p.stream))
  }

  /** Producers append, or free their marker, before it expires. */
  predicate Timely(s: State, a: Action) {
    a.Produce? ==> Marking.Timely(s.p, a.a, s.now)
  }

  /** The state after a run; `timely` restricts it to timely producers. */
  function After(sys: System, s: State, acts: seq<Action>, timely: bool): Option<State> {
    if acts == [] then Some(s)
    else
      var before := After(sys, s, acts[..|acts| - 1], timely);
      var a := acts[|acts| - 1];
      if before.Some? && Enabled(sys, before.value, a) && (timely ==> Timely(before.value, a))
      then Some(Step(sys, before.value, a)) else None
  }

  ghost predicate Reachable(sys: System, s: State, timely: bool) {
    exists acts :: After(sys, Initial, acts, timely) == Some(s)
  }

  predicate Inv(sys: System, s: State, timely: bool) {
    && Marking.Inv(sys.producers, s.p, s.now)
    && (timely ==> Marking.TimelyOk(s.p))
    && Leasing.Inv(sys.workers, s.w, s.now, s.p.stream)
  }

  lemma StepInv(sys: System, s: State, a: Action, timely: bool)
    requires Inv(sys, s, timely) && Enabled(sys, s, a) && (timely ==> Timely(s, a))
    ensures Inv(sys, Step(sys, s, a), timely)
  {
    hide Marking.Inv, Marking.TimelyOk, Marking.Step, Marking.Enabled, Marking.Timely, Leasing.Inv, Leasing.Step, Leasing.Enabled;
    match a
    case Tick(ms) =>
      Marking.Later(sys.producers, s.p, s.now, s.now + ms);
      Leasing.Later(sys.workers, s.w, s.now, s.now + ms, s.p.stream, s.p.stream);
    case Produce(b) =>
      Marking.StepInv(sys.producers, s.p, b, s.now);
      if timely { Marking.StepTimely(sys.producers, s.p, b, s.now); }
      Leasing.Later(sys.workers, s.w, s.now, s.now, s.p.stream, Marking.Step(sys.producers, s.p, b, s.now).stream);
    case Work(b) =>
      Leasing.StepInv(sys.workers, s.w, b, s.now, s.p.stream);
  }

  lemma InitialInv(sys: System)
    ensures Inv(sys, Initial, true)
  {}

  lemma {:induction false} RunInv(sys: System, s: State, acts: seq<Action>, timely: bool)
    requires Inv(sys, s, timely) && After(sys, s, acts, timely).Some?
    ensures Inv(sys, After(sys, s, acts, timely).value, timely)
    decreases |acts|
  {
    hide Inv, Step, Enabled, Timely;
    if acts != [] {
      RunInv(sys, s, acts[..|acts| - 1], timely);
      StepInv(sys, After(sys, s, acts[..|acts| - 1], timely).value, acts[|acts| - 1], timely);
    }
  }

  lemma ReachableInv(sys: System, s: State, timely: bool)
    requires Reachable(sys, s, timely)
    ensures Inv(sys, s, timely)
  {
    hide Step, Enabled, Timely;
    var acts :| After(sys, Initial, acts, timely) == Some(s);
    InitialInv(sys);
    RunInv(sys, Initial, acts, timely);
  }

  // ---------------------------------------------------------------- claims

  /** The claim's lease has not run out and it was not completed. */
  predicate Unexpired(c: Leasing.Claim, now: Clock) {
    c.done.None? && now < c.until
  }

  /** At every moment at most one unexpired claim exists per run key. */
  lemma OneUnexpiredClaim(sys: System, s: State, t: nat, u: nat)
    requires Reachable(sys, s, false)
    requires t < |s.w.claims| && u < |s.w.claims| && s.w.claims[t].key == s.w.claims[u].key
    requires Unexpired(s.w.claims[t], s.now) && Unexpired(s.w.claims[u], s.now)
    ensures t == u
  {
    hide Marking.Inv, Leasing.WorkersOk;
    ReachableInv(sys, s, false);
    Leasing.UnexpiredIsLast(s.w, t, s.now);
    Leasing.UnexpiredIsLast(s.w, u, s.now);
  }

  /** After a completion no claim of the key is granted until its retention has ended, and after an
      uncompleted claim none is granted until its lease has ended. */
  lemma LaterClaimWaits(sys: System, s: State, t: nat, u: nat)
    requires Reachable(sys, s, false)
    requires t < u < |s.w.claims| && s.w.claims[t].key == s.w.claims[u].key
    ensures s.w.claims[t].done.Some? ==> s.w.claims[u].at >= s.w.claims[t].done.value + 86_400_000
    ensures s.w.claims[t].done.None? ==> s.w.claims[u].at >= s.w.claims[t].until
  {
    hide Marking.Inv, Leasing.WorkersOk;
    ReachableInv(sys, s, false);
  }

  /** Two claims of a key enter its executor less than a retention window apart only if the earlier one was
      never completed, and its lease ran out before the later one was granted. */
  lemma CloseEntriesOutliveLease(sys: System, s: State, t: nat, u: nat)
    requires Reachable(sys, s, false)
    requires t < u < |s.w.claims| && s.w.claims[t].key == s.w.claims[u].key
    requires s.w.claims[t].entered.Some? && s.w.claims[u].entered.Some?
    requires s.w.claims[u].entered.value < s.w.claims[t].entered.value + 86_400_000
    ensures s.w.claims[t].done.None? && s.w.claims[t].until <= s.w.claims[u].at <= s.w.claims[u].entered.value
  {
    hide Marking.Inv, Leasing.WorkersOk;
    ReachableInv(sys, s, false);
    assert Leasing.ClaimOk(s.w.claims[t], s.now) && Leasing.ClaimOk(s.w.claims[u], s.now);
    assert Leasing.Bars(s.w.claims[t]) <= s.w.claims[u].at;
  }

  /** Every claim whose lease has run out was completed before it did. */
  predicate ClaimersKeepUp(s: State) {
    forall t :: 0 <= t < |s.w.claims| && s.now >= s.w.claims[t].until ==> s.w.claims[t].done.Some?
  }

  /** If every claimer completes in time, two claims under which a slot's executor was entered are a
      full retention window apart. */
  lemma EntriesOnePerWindow(sys: System, s: State, t: nat, u: nat)
    requires Reachable(sys, s, false) && ClaimersKeepUp(s)
    requires t < u < |s.w.claims| && s.w.claims[t].key == s.w.claims[u].key
    requires s.w.claims[t].entered.Some? && s.w.claims[u].entered.Some?
    ensures s.w.claims[u].entered.value >= s.w.claims[t].entered.value + 86_400_000
  {
    hide Marking.Inv, Leasing.WorkersOk;
    ReachableInv(sys, s, false);
    assert Leasing.ClaimOk(s.w.claims[u], s.now);
    if s.w.claims[u].entered.value < s.w.claims[t].entered.value + Leasing.RETENTION {
      CloseEntriesOutliveLease(sys, s, t, u);
    }
  }

  /** Under one claim the executor is entered at most once: a step never changes the time of an entry,
      and never rewrites a completion. */
  lemma ClaimHistoryStands(sys: System, s: State, a: Action, t: nat)
    requires Reachable(sys, s, false) && Enabled(sys, s, a) && t < |s.w.claims|
    ensures var s' := Step(sys, s, a);
            && t < |s'.w.claims| && s'.w.claims[t].key == s.w.claims[t].key
            && (s.w.claims[t].entered.Some? ==> s'.w.claims[t].entered == s.w.claims[t].entered)
            && (s.w.claims[t].done.Some? ==> s'.w.claims[t].done == s.w.claims[t].done)
  {
    hide Marking.Inv, Marking.Step, Marking.Enabled, Leasing.Step, Leasing.Enabled, Leasing.Inv, Leasing.WorkerOk;
    ReachableInv(sys, s, false);
    if a.Work? { Leasing.StepWorker(sys.workers, s.w, a.b, s.now, s.p.stream); }
  }

  lemma {:induction false} RunLawful(sys: System, acts: seq<Action>)
    requires After(sys, Initial, acts, false).Some?
    ensures var s := After(sys, Initial, acts, false).value; Leasing.Lawful(sys.workers, s.w.claims, s.p.stream)
  {
    hide Inv, Step, Enabled, Timely;
    if acts != [] {
      var front, a := acts[..|acts| - 1], acts[|acts| - 1];
      RunLawful(sys, front);
      var s := After(sys, Initial, front, false).value;
      ReachableInv(sys, s, false);
      LawfulStep(sys, s, a);
    }
  }

  lemma LawfulStep(sys: System, s: State, a: Action)
    requires Inv(sys, s, false) && Enabled(sys, s, a) && Leasing.Lawful(sys.workers, s.w.claims, s.p.stream)
    ensures Leasing.Lawful(sys.workers, Step(sys, s, a).w.claims, Step(sys, s, a).p.stream)
  {
    hide Marking.Inv, Marking.Step, Marking.Enabled, Leasing.Inv, Leasing.Lawful, Leasing.Step, Leasing.Enabled;
    match a
    case Tick(_) =>
    case Produce(b) =>
      Marking.StepInv(sys.producers, s.p, b, s.now);
      Leasing.LawfulLater(sys.workers, s.w.claims, s.p.stream, Step(sys, s, a).p.stream);
    case Work(b) => Leasing.StepLawful(sys.workers, s.w, b, s.now, s.p.stream);
  }

  /** In every run an executor is entered only for an accepted job whose slot is due at the time it was queued
      for and has the claimed key, and only under a definition that reads and had not expired at that time. */
  lemma EntriesArePermitted(sys: System, s: State, t: nat) returns (at: Instant)
    requires Reachable(sys, s, false) && t < |s.w.claims| && s.w.claims[t].entered.Some?
    ensures var c := s.w.claims[t]; var d := sys.workers.definition(c.worker);
            && c.job < |s.p.stream| && ValidatePayload(s.p.stream[c.job], d) == Ok(at)
            && Due(d, at) && c.key == RunKey(d.id, Slot(d, at)) && |c.key| <= 256
            && d.permissionsMode == "read_only" && (d.expiresAt.Some? ==> at < d.expiresAt.value)
  {
    hide Step, Enabled, Timely, Leasing.KeyOf, RunKey, Leasing.LeaseOf;
    var acts :| After(sys, Initial, acts, false) == Some(s);
    RunLawful(sys, acts);
    var c := s.w.claims[t];
    var d := sys.workers.definition(c.worker);
    assert Leasing.ClaimLawful(sys.workers, s.p.stream, c);
    at := Leasing.KeyOf(d, s.p.stream[c.job]).value.value.1;
    Leasing.KeyOfIff(d, s.p.stream[c.job], c.key, at);
  }

  /** A claim begins exactly where no value stands under the key: the worker goes on to claim when its GET finds
      none, and owns the key, with its own token and lease, when SET NX does. A value found is acknowledged. */
  lemma ClaimedIff(sys: System, s: State, w: nat, key: string, at: Instant)
    ensures Leasing.At(s.w, w).Got? && Enabled(sys, s, Work(Leasing.Get(w))) ==>
              var job := Leasing.At(s.w, w).job; var pc := Leasing.At(Step(sys, s, Work(Leasing.Get(w))).w, w);
              Leasing.KeyOf(sys.workers.definition(w), s.p.stream[job]) == Ok(Some((key, at))) ==>
                if Leasing.Live(s.w.runs, key, s.now) then pc.Deciding? && pc.reason.Occupied? else pc == Leasing.SawAbsent(job, key, at)
    ensures Leasing.At(s.w, w).SawAbsent? && Leasing.At(s.w, w).key == key ==>
              var t := Step(sys, s, Work(Leasing.SetNx(w))); var token := |s.w.claims|;
              if Leasing.Live(s.w.runs, key, s.now) then Leasing.At(t.w, w).Beaten? && t.w.runs == s.w.runs && t.w.claims == s.w.claims
              else Leasing.At(t.w, w).Owner? && Leasing.At(t.w, w).token == token && |t.w.claims| == token + 1
                   && key in t.w.runs && t.w.runs[key].held == Leasing.Running(token) && t.w.runs[key].until == t.w.claims[token].until
  {
    hide Leasing.KeyOf, Leasing.LeaseOf;
  }

  /** A worker that holds a claim enters its executor exactly under a definition that reads and has not expired
      at the job's time, unless the process has a record of the slot, which a restart would have it forget. */
  lemma OwnerEntersIff(sys: System, s: State, w: nat)
    requires Leasing.At(s.w, w).Owner?
    ensures var pc, d := Leasing.At(s.w, w), sys.workers.definition(w);
            Leasing.At(Step(sys, s, Work(Leasing.Enter(w))).w, w).Executing? <==>
            d.permissionsMode == "read_only" && (d.expiresAt.Some? ==> pc.at < d.expiresAt.value) && pc.key !in Leasing.History(s.w, w)
    ensures forall t: State :: Leasing.At(t.w, w).Stopped? ==> Leasing.History(Step(sys, t, Work(Leasing.Restart(w))).w, w) == {}
  {
    hide RunKey;
  }

  /** A claim's lease is the allowed runtime and 30 seconds more, but at least a minute and at most a day. */
  lemma LeaseCoversRuntime(sys: System, s: State, t: nat)
    requires Reachable(sys, s, false) && t < |s.w.claims|
    ensures var c := s.w.claims[t]; var seconds := sys.workers.definition(c.worker).maxRuntimeSeconds + 30;
            && c.at + 60_000 <= c.until <= c.at + 86_400_000
            && (seconds <= 86_400 ==> c.at + 1000 * seconds <= c.until)
            && (seconds >= 60 ==> c.until <= c.at + 1000 * seconds)
  {
    hide Step, Enabled, Timely, Leasing.KeyOf;
    var acts :| After(sys, Initial, acts, false) == Some(s);
    RunLawful(sys, acts);
    assert Leasing.ClaimLawful(sys.workers, s.p.stream, s.w.claims[t]);
  }

  // ---------------------------------------------------------------- fencing

  predicate LiveAs(s: State, key: string, held: Leasing.Held) {
    Leasing.Live(s.w.runs, key, s.now) && s.w.runs[key].held == held
  }

  /** A live run key changes its value only when the worker that holds its unexpired lease completes it. */
  lemma OnlyOwnerReplaces(sys: System, s: State, a: Action, key: string)
    requires Reachable(sys, s, false) && Enabled(sys, s, a) && !a.Tick?
    requires Leasing.Live(s.w.runs, key, s.now)
    requires !(key in Step(sys, s, a).w.runs && Step(sys, s, a).w.runs[key] == s.w.runs[key])
    ensures a.Work? && a.b.Complete? && Leasing.At(s.w, a.b.w).Ran?
    ensures var token := Leasing.At(s.w, a.b.w).token;
            && LiveAs(s, key, Leasing.Running(token)) && token < |s.w.claims|
            && s.w.claims[token].worker == a.b.w && s.w.claims[token].key == key && s.now < s.w.claims[token].until
            && LiveAs(Step(sys, s, a), key, Leasing.Completed(token))
  {
    hide Marking.Inv, Marking.Step, Marking.Enabled, Leasing.GetStep, Leasing.GetAgainStep, Leasing.EnterStep, Leasing.KeyOf;
    hide Leasing.Separated, Leasing.Justified, Leasing.JobHasKey;
    ReachableInv(sys, s, false);
    assert Leasing.EntryOk(s.w.claims, key, s.w.runs[key]);
    RunsOfStep(sys, s, a.b);
    if a.b.w in s.w.workers { assert Leasing.WorkerOk(sys.workers, s.w.claims, s.p.stream, a.b.w, s.w.workers[a.b.w]); }
  }

  lemma RunsOfStep(sys: System, s: State, b: Leasing.Action)
    requires Enabled(sys, s, Work(b))
    ensures !b.SetNx? && !b.Complete? ==> Step(sys, s, Work(b)).w.runs == s.w.runs
  {
    hide Leasing.KeyOf, Leasing.LeavesEarly, RunKey, Leasing.CompleteStep, Leasing.SetNxStep, Leasing.Found;
  }

  /** The worker whose trigger has returned can no longer complete its claim: the lease has lapsed, or the
      trigger left early and recorded under another key than the one that was claimed. */
  predicate ClaimLost(s: State, w: nat)
    requires Leasing.At(s.w, w).Ran?
  {
    var Ran(job, key, token, recorded) := Leasing.At(s.w, w);
    recorded != key || token >= |s.w.claims| || s.now >= s.w.claims[token].until
  }

  function Completing(sys: System, s: State, w: nat): State
    requires Leasing.At(s.w, w).Ran?
  {
    Step(sys, s, Work(Leasing.Complete(w)))
  }

  /** A worker's completion succeeds exactly when its trigger recorded under the claimed key and its lease
      has not run out. Otherwise it takes the error path and Redis keeps what it has. */
  lemma CompletionSucceedsIff(sys: System, s: State, w: nat)
    requires Reachable(sys, s, false) && Leasing.At(s.w, w).Ran?
    ensures var pc, t := Leasing.At(s.w, w), Completing(sys, s, w);
            && pc.token < |s.w.claims| && s.w.claims[pc.token].key == pc.key
            && if ClaimLost(s, w) then t.w == Leasing.Moved(s.w, w, Leasing.Stopped)
               else Leasing.At(t.w, w) == Leasing.Deciding(pc.job, Leasing.OwnCompletion(pc.token)) && LiveAs(t, pc.key, Leasing.Completed(pc.token))
  {
    hide Inv, Completing, ClaimLost;
    ReachableInv(sys, s, false);
    CompletionOutcome(sys, s, w);
  }

  lemma CompletionOutcome(sys: System, s: State, w: nat)
    requires Inv(sys, s, false) && Leasing.At(s.w, w).Ran?
    ensures ClaimOf(s, w)
    ensures ClaimLost(s, w) ==> Completing(sys, s, w).w == Leasing.Moved(s.w, w, Leasing.Stopped)
    ensures !ClaimLost(s, w) ==> CompletedBy(s, w, Completing(sys, s, w))
  {
    hide Marking.Inv, Leasing.KeyOf, Leasing.Separated, Leasing.Justified, Leasing.JobHasKey, RunKey;
    var pc := Leasing.At(s.w, w);
    assert Leasing.WorkerOk(sys.workers, s.w.claims, s.p.stream, w, pc);
    if pc.recorded in s.w.runs { assert Leasing.EntryOk(s.w.claims, pc.recorded, s.w.runs[pc.recorded]); }
    assert Leasing.Kept(s.w.runs, s.w.claims[pc.token], pc.token, s.now);
  }

  predicate ClaimOf(s: State, w: nat)
    requires Leasing.At(s.w, w).Ran?
  {
    var pc := Leasing.At(s.w, w);
    pc.token < |s.w.claims| && s.w.claims[pc.token].key == pc.key
  }

  predicate CompletedBy(s: State, w: nat, t: State)
    requires Leasing.At(s.w, w).Ran?
  {
    var pc := Leasing.At(s.w, w);
    Leasing.At(t.w, w) == Leasing.Deciding(pc.job, Leasing.OwnCompletion(pc.token)) && LiveAs(t, pc.key, Leasing.Completed(pc.token))
  }

  // ---------------------------------------------------------------- acknowledgements

  /** Every acknowledgement follows the worker's own completion of the job's key; or a look that found the
      key held by a claim which had not stopped barring others, or gone after SET NX had found it held; or a
      slot that was not due. */
  lemma AckJustified(sys: System, s: State, i: nat)
    requires Reachable(sys, s, false) && i < |s.w.acks|
    ensures Leasing.Justified(sys.workers, s.w.claims, s.p.stream, s.w.acks[i].worker, s.w.acks[i].job, s.w.acks[i].reason)
  {
    hide Marking.Inv, Leasing.ClaimsOk, Leasing.Justified, Leasing.WorkerOk;
    ReachableInv(sys, s, false);
  }

  /** A job whose key is found occupied is acknowledged in any case. The slot it belongs to has been completed
      iff the value found is the completion marker; a running value is an open claim, whose owner may crash. */
  lemma OccupiedIsCompletedIff(sys: System, s: State, key: string)
    requires Reachable(sys, s, false) && Leasing.Live(s.w.runs, key, s.now)
    ensures var t := s.w.runs[key].held.token;
            && t < |s.w.claims| && s.w.claims[t].key == key
            && (s.w.claims[t].done.Some? <==> s.w.runs[key].held.Completed?)
            && (Unexpired(s.w.claims[t], s.now) <==> s.w.runs[key].held.Running?)
  {
    hide Marking.Inv, Leasing.WorkersOk, Leasing.Separated;
    ReachableInv(sys, s, false);
    assert Leasing.EntryOk(s.w.claims, key, s.w.runs[key]);
  }

  /** Some claim of the key was completed, and its completion is still retained at this time. */
  predicate Retained(claims: seq<Leasing.Claim>, key: string, at: Clock) {
    exists t :: 0 <= t < |claims| && claims[t].key == key && claims[t].done.Some? && at < claims[t].done.value + Leasing.RETENTION
  }

  /** The guards under which the code knows that the slot is complete. */
  predicate Confirmed(r: Leasing.Reason) {
    r.OwnCompletion? || (r.Occupied? && r.completed)
  }

  /** The claims that the decision to acknowledge a due job was based on, and when. */
  function Basis(claims: seq<Leasing.Claim>, r: Leasing.Reason): (seq<Leasing.Claim>, Clock)
    requires !r.NotDue?
  {
    match r
    case OwnCompletion(t) => (claims, if t < |claims| && claims[t].done.Some? then claims[t].done.value else 0)
    case Occupied(_, looked, _, seen) => (seen, looked)
    case Vanished(_, looked, seen) => (seen, looked)
  }

  /** An acknowledgement of a due job finds its slot completed, in the retention window, iff the worker
      completed it itself or read the completion marker. Every other reading loses the guarantee. */
  lemma AckedCompletedIff(sys: System, s: State, i: nat, key: string)
    requires Reachable(sys, s, false) && i < |s.w.acks| && !s.w.acks[i].reason.NotDue?
    requires Leasing.JobHasKey(sys.workers, s.p.stream, s.w.acks[i].worker, s.w.acks[i].job, key)
    ensures var (seen, at) := Basis(s.w.claims, s.w.acks[i].reason);
            && Leasing.Grown(seen, s.w.claims)
            && (Retained(seen, key, at) <==> Confirmed(s.w.acks[i].reason))
  {
    hide Leasing.KeyOf, Leasing.LookOk;
    AckJustified(sys, s, i);
    var r := s.w.acks[i].reason;
    match r {
      case OwnCompletion(t) =>
        assert s.w.claims[t].key == key;
      case _ =>
        LookRetains(r, key);
    }
  }

  lemma LookRetains(r: Leasing.Reason, key: string)
    requires r.Occupied? || r.Vanished?
    requires Leasing.LookOk(r.seen, r) && r.seen[r.token].key == key
    ensures Retained(r.seen, key, r.looked) <==> Confirmed(r)
  {
    var seen, t := r.seen, r.token;
    forall u | 0 <= u < |seen| && seen[u].key == key && seen[u].done.Some? && r.looked < seen[u].done.value + Leasing.RETENTION
      ensures u == t
    {
      assert Leasing.ClaimOk(seen[u], r.looked) && Leasing.ClaimOk(seen[t], r.looked);
    }
  }

  /** Nobody has the job any more: it is not pending, and no worker is in the middle of it. */
  predicate Gone(s: Leasing.State, job: nat) {
    && job < s.delivered && job !in s.pending
    && forall w <- s.workers :: s.workers[w].Idle? || s.workers[w].Stopped? || s.workers[w].job != job
  }

  /** What nobody has, nobody gets again. */
  lemma GoneStays(sys: System, s: State, a: Action, job: nat)
    requires Enabled(sys, s, a) && Gone(s.w, job)
    ensures Gone(Step(sys, s, a).w, job)
  {
    hide Leasing.KeyOf, Leasing.GetStep, Leasing.SetNxStep, Leasing.GetAgainStep, Leasing.EnterStep, Leasing.CompleteStep, Marking.Step;
  }

  predicate Acked(s: Leasing.State, job: nat) {
    exists i :: 0 <= i < |s.acks| && s.acks[i].job == job
  }

  /** A delivered job is pending until it is acknowledged. */
  predicate PendingOk(s: Leasing.State) {
    && (forall i :: 0 <= i < |s.acks| ==> s.acks[i].job < s.delivered)
    && (forall j: nat :: j < s.delivered ==> (j in s.pending <==> !Acked(s, j)))
  }

  lemma PendingStep(sys: System, s: State, a: Action)
    requires PendingOk(s.w) && Inv(sys, s, false) && Enabled(sys, s, a)
    ensures PendingOk(Step(sys, s, a).w)
  {
    hide Marking.Inv, Leasing.WorkerOk, Leasing.ClaimsOk, Leasing.Justified, Marking.Step, Marking.Enabled;
    hide Leasing.GetStep, Leasing.SetNxStep, Leasing.GetAgainStep, Leasing.EnterStep, Leasing.CompleteStep, PendingOk;
    if a.Work? {
      var t := Step(sys, s, a);
      if a.b.Acknowledge? {
        var pc := Leasing.At(s.w, a.b.w);
        assert Leasing.HasDelivered(pc, s.w.delivered);
        PendingAcked(s.w, t.w, Leasing.Ack(pc.job, a.b.w, pc.reason));
      } else {
        PendingSame(s.w, t.w);
      }
    }
  }

  /** A delivery, or a step that leaves the pending list alone. */
  lemma PendingSame(s: Leasing.State, t: Leasing.State)
    requires PendingOk(s) && t.acks == s.acks && s.delivered <= t.delivered <= s.delivered + 1
    requires t.pending.Keys == s.pending.Keys + if t.delivered == s.delivered then {} else {s.delivered}
    ensures PendingOk(t)
  {
    hide Acked;
    forall j: nat | j < t.delivered
      ensures j in t.pending <==> !Acked(t, j)
    {
      assert j in t.pending.Keys <==> j in s.pending.Keys || j == s.delivered < t.delivered;
      assert Acked(t, j) <==> Acked(s, j) by { AckedAlike(s, t, j); }
      if j == s.delivered { NotYetAcked(s, j); }
    }
  }

  lemma AckedAlike(s: Leasing.State, t: Leasing.State, job: nat)
    requires t.acks == s.acks
    ensures Acked(t, job) <==> Acked(s, job)
  {}

  lemma NotYetAcked(s: Leasing.State, job: nat)
    requires PendingOk(s) && s.delivered <= job
    ensures !Acked(s, job)
  {}

  lemma PendingAcked(s: Leasing.State, t: Leasing.State, ack: Leasing.Ack)
    requires PendingOk(s) && ack.job < s.delivered == t.delivered
    requires t.acks == s.acks + [ack] && t.pending == s.pending - {ack.job}
    ensures PendingOk(t)
  {
    assert t.acks[|s.acks|] == ack;
    assert forall i :: 0 <= i < |s.acks| ==> t.acks[i] == s.acks[i];
    forall j: nat | j < t.delivered
      ensures j in t.pending <==> !Acked(t, j)
    {
      if Acked(s, j) {
        var i :| 0 <= i < |s.acks| && s.acks[i].job == j;
        assert t.acks[i].job == j;
      }
    }
  }

  lemma {:induction false} PendingRun(sys: System, acts: seq<Action>)
    requires After(sys, Initial, acts, false).Some?
    ensures PendingOk(After(sys, Initial, acts, false).value.w)
  {
    hide Inv, Step, Enabled, Timely;
    if acts != [] {
      var front := acts[..|acts| - 1];
      PendingRun(sys, front);
      var s := After(sys, Initial, front, false).value;
      ReachableInv(sys, s, false);
      PendingStep(sys, s, acts[|acts| - 1]);
    }
  }

  /** A pending job is handed out again only when it has been pending for the redelivery timeout. */
  lemma RedeliveredAfterTimeout(sys: System, s: State, a: Action, job: nat)
    requires Enabled(sys, s, a) && job in s.w.pending && job < s.w.delivered
    requires job in Step(sys, s, a).w.pending && Step(sys, s, a).w.pending[job] != s.w.pending[job]
    ensures s.now >= s.w.pending[job].at + sys.workers.claimAfter && Step(sys, s, a).w.pending[job].at == s.now
  {
    hide Leasing.KeyOf, Leasing.GetStep, Leasing.SetNxStep, Leasing.GetAgainStep, Leasing.EnterStep, Leasing.CompleteStep, Marking.Step;
  }

  /** The key that the acknowledging worker computed for the job, if the job was due. */
  function AckKey(sys: System, s: State, i: nat): Option<string>
    requires i < |s.w.acks|
  {
    var ack := s.w.acks[i];
    if ack.job >= |s.p.stream| then None
    else
      match Leasing.KeyOf(sys.workers.definition(ack.worker), s.p.stream[ack.job])
      case Ok(Some((key, _))) => Some(key)
      case _ => None
  }

  /** When this acknowledgement was decided on, a completion of the job's slot was retained. */
  predicate FoundCompleted(sys: System, s: State, i: nat)
    requires i < |s.w.acks|
  {
    && !s.w.acks[i].reason.NotDue? && AckKey(sys, s, i).Some?
    && var (seen, at) := Basis(s.w.claims, s.w.acks[i].reason); Retained(seen, AckKey(sys, s, i).value, at)
  }

  /** What becomes of a delivered job: it stays on the pending list, to be delivered again, or somebody has
      acknowledged it, never both. An acknowledgement is of a slot that was not due exactly if it says so, and
      of a slot that was found completed exactly if its reason is one of the two confirming ones. */
  lemma DeliveredJobFate(sys: System, s: State, job: nat)
    requires Reachable(sys, s, false) && job < s.w.delivered
    ensures job in s.w.pending <==> !Acked(s.w, job)
    ensures forall i :: 0 <= i < |s.w.acks| && s.w.acks[i].job == job ==>
              && (s.w.acks[i].reason.NotDue? <==> AckKey(sys, s, i).None?)
              && (FoundCompleted(sys, s, i) <==> Confirmed(s.w.acks[i].reason))
  {
    hide PendingOk, FoundCompleted, Confirmed, Step, Enabled, Timely, AckKey;
    var acts :| After(sys, Initial, acts, false) == Some(s);
    PendingRun(sys, acts);
    PendingIffUnacked(s.w, job);
    forall i | 0 <= i < |s.w.acks|
      ensures s.w.acks[i].reason.NotDue? <==> AckKey(sys, s, i).None?
      ensures FoundCompleted(sys, s, i) <==> Confirmed(s.w.acks[i].reason)
    {
      AckFate(sys, s, i);
    }
  }

  lemma PendingIffUnacked(s: Leasing.State, job: nat)
    requires PendingOk(s) && job < s.delivered
    ensures job in s.pending <==> !Acked(s, job)
  {}

  lemma AckFate(sys: System, s: State, i: nat)
    requires Reachable(sys, s, false) && i < |s.w.acks|
    ensures s.w.acks[i].reason.NotDue? <==> AckKey(sys, s, i).None?
    ensures FoundCompleted(sys, s, i) <==> Confirmed(s.w.acks[i].reason)
  {
    hide Leasing.KeyOf, Leasing.LookOk, Basis, Retained, Reachable;
    AckJustified(sys, s, i);
    if !s.w.acks[i].reason.NotDue? { AckedCompletedIff(sys, s, i, AckKey(sys, s, i).value); }
  }

  /** The read by which worker `w` is about to decide, if it is about to read. */
  function NextRead(s: Leasing.State, w: nat): Option<Leasing.Action> {
    match Leasing.At(s, w)
    case Got(_) => Some(Leasing.Get(w))
    case Beaten(_, _, _) => Some(Leasing.GetAgain(w))
    case _ => None
  }

  /** Worker `w` reads its run key next, and what it reads counts as in progress. */
  predicate ReadsInProgress(sys: System, s: State, w: nat) {
    && NextRead(s.w, w).Some? && Enabled(sys, s, Work(NextRead(s.w, w).value))
    && var pc := Leasing.At(Step(sys, s, Work(NextRead(s.w, w).value)).w, w);
       pc.Deciding? && !pc.reason.NotDue? && !Confirmed(pc.reason)
  }

  lemma ReadIsUnconfirmed(sys: System, s: State, w: nat, timely: bool)
    requires Reachable(sys, s, timely) && ReadsInProgress(sys, s, w)
    ensures var job := Leasing.At(s.w, w).job;
            && job < s.w.delivered && job < |s.p.stream|
            && var k := Leasing.KeyOf(sys.workers.definition(w), s.p.stream[job]);
            && k.Ok? && k.value.Some? && !Retained(s.w.claims, k.value.value.0, s.now)
  {
    hide Leasing.KeyOf, Leasing.LookOk, Leasing.ClaimsOk, Marking.Inv;
    ReachableInv(sys, s, timely);
    var pc := Leasing.At(s.w, w);
    assert Leasing.WorkerOk(sys.workers, s.w.claims, s.p.stream, w, pc) && Leasing.HasDelivered(pc, s.w.delivered);
    var r := Leasing.At(Step(sys, s, Work(NextRead(s.w, w).value)).w, w).reason;
    var key := Leasing.KeyOf(sys.workers.definition(w), s.p.stream[pc.job]).value.value.0;
    if Leasing.Live(s.w.runs, key, s.now) {
      Leasing.FoundOk(s.w, key, s.now);
    } else {
      Leasing.VanishedOk(s.w, key, pc.token, s.now);
    }
    LookRetains(r, key);
  }

  /** All workers of this set crash. */
  function Crashed(s: Leasing.State, ws: set<nat>): Leasing.State {
    s.(workers := map v | v in s.workers.Keys + ws :: if v in ws then Leasing.Stopped else s.workers[v])
  }

  lemma {:induction false} CrashedReachable(sys: System, s: State, ws: set<nat>, timely: bool)
    requires Reachable(sys, s, timely)
    ensures Reachable(sys, s.(w := Crashed(s.w, ws)), timely)
    decreases |ws|
  {
    hide Reachable;
    if ws == {} {
      assert Crashed(s.w, ws).workers == s.w.workers;
    } else {
      var v :| v in ws;
      CrashedReachable(sys, s, ws - {v}, timely);
      var t := s.(w := Crashed(s.w, ws - {v}));
      ReachMore(sys, t, Work(Leasing.Stop(v)), timely);
      assert Crashed(s.w, ws).workers == Step(sys, t, Work(Leasing.Stop(v))).w.workers;
    }
  }

  /** Every read that counts as in progress can lose the job: if the other workers crash, the
      acknowledgement takes the job off the queue for good, while no completion of its slot is retained and
      no worker is left to complete an open claim. */
  lemma InProgressReadLosesJob(sys: System, s: State, w: nat, timely: bool) returns (t: State)
    requires Reachable(sys, s, timely) && ReadsInProgress(sys, s, w)
    ensures Reachable(sys, t, timely) && t.now == s.now && t.w.claims == s.w.claims
    ensures var job := Leasing.At(s.w, w).job; Gone(t.w, job) && job < |t.p.stream| && Leasing.KeyOf(sys.workers.definition(w), t.p.stream[job]).Ok?
    ensures var job := Leasing.At(s.w, w).job; var key := Leasing.KeyOf(sys.workers.definition(w), t.p.stream[job]).value;
            key.Some? && !Retained(t.w.claims, key.value.0, t.now)
    ensures forall v <- t.w.workers :: t.w.workers[v].Idle? || t.w.workers[v].Stopped?
  {
    hide Reachable, Leasing.KeyOf, Leasing.Found, Marking.Inv;
    var job := Leasing.At(s.w, w).job;
    ReadIsUnconfirmed(sys, s, w, timely);
    ReachMore(sys, s, Work(NextRead(s.w, w).value), timely);
    var u := Step(sys, s, Work(NextRead(s.w, w).value));
    var others := u.w.workers.Keys - {w};
    CrashedReachable(sys, u, others, timely);
    var v := u.(w := Crashed(u.w, others));
    ReachMore(sys, v, Work(Leasing.Acknowledge(w)), timely);
    t := Step(sys, v, Work(Leasing.Acknowledge(w)));
  }

  // ---------------------------------------------------------------- producers

  /** The marking that a poll made before it appended stream entry i. */
  predicate Queued(s: State, i: nat, m: nat) {
    i < |s.p.origins| && s.p.origins[i] == Some(m) && m < |s.p.marks|
  }

  /** Each marking adds at most one entry, in every run. */
  lemma OneEntryPerMarking(sys: System, s: State, i: nat, j: nat, m: nat)
    requires Reachable(sys, s, false) && Queued(s, i, m) && Queued(s, j, m)
    ensures i == j
  {
    hide Leasing.Inv;
    ReachableInv(sys, s, false);
  }

  /** A worker with the producer's definition claims an entry under the very key its marker had. */
  lemma EntryHasMarkedKey(sys: System, s: State, i: nat, m: nat)
    requires Reachable(sys, s, false) && Queued(s, i, m)
    ensures i < |s.p.stream|
    ensures WorkerKey(sys.producers(s.p.marks[m].producer), s.p.stream[i]) == Some(s.p.marks[m].key)
  {
    hide Leasing.Inv, WorkerKey, ProducerKey, BuildPayload;
    ReachableInv(sys, s, false);
    var k := s.p.marks[m];
    assert Marking.MarkOk(sys.producers, s.p, m, s.now);
    KeysAgree(sys.producers(k.producer), k.polled);
  }

  /** The later of two markings begins, and its entry goes in, after the earlier one's lifetime, in which the
      earlier one's entry went in. */
  predicate LifetimesApart(a: Marking.Mark, b: Marking.Mark) {
    a.at <= a.added < a.until <= b.at <= b.added < b.until
  }

  /** The entry went in after its own marker's lifetime. */
  predicate Late(k: Marking.Mark) {
    k.until <= k.added
  }

  /** A DEL found the earlier marker, and the key was marked again in what would have been its lifetime. */
  predicate DroppedUnder(a: Marking.Mark, b: Marking.Mark) {
    a.dropped.Some? && a.at <= a.dropped.value.at <= b.at < a.until
  }

  /** However many producers poll one slot, however long they stall, and however their commands fail: two
      entries of one key go in during marker lifetimes that do not overlap, exactly unless one of them went in
      late or a DEL removed the earlier marker. The DEL is that of the marking's own producer, or of an earlier
      one whose marking was over. With timely producers only the own DEL is left. */
  lemma EntriesLifetimesApart(sys: System, s: State, timely: bool, i: nat, m: nat, j: nat, n: nat)
    requires Reachable(sys, s, timely) && Queued(s, i, m) && Queued(s, j, n) && i != j
    requires s.p.marks[m].key == s.p.marks[n].key
    ensures m != n && s.p.marks[m].until == s.p.marks[m].at + 2_592_000_000
    ensures var a, b := s.p.marks[m], s.p.marks[n];
            m < n ==> (LifetimesApart(a, b) <==> !Late(a) && !Late(b) && !DroppedUnder(a, b))
    ensures s.p.marks[m].dropped.Some? ==> DropIsExplained(s, m)
    ensures timely ==> !Late(s.p.marks[m]) && (s.p.marks[m].dropped.Some? ==> s.p.marks[m].dropped.value.cause == m)
  {
    hide Leasing.Inv, ProducerKey, BuildPayload;
    ReachableInv(sys, s, timely);
    assert Marking.MarkOk(sys.producers, s.p, m, s.now) && Marking.MarkOk(sys.producers, s.p, n, s.now);
  }

  /** The DEL that found this marker came from its own producer, or from one that had marked the key before
      and whose marking no longer guarded it when this one began. */
  predicate DropIsExplained(s: State, m: nat)
    requires m < |s.p.marks| && s.p.marks[m].dropped.Some?
  {
    var c := s.p.marks[m].dropped.value.cause;
    c <= m && s.p.marks[c].key == s.p.marks[m].key && (c < m ==> Marking.Over(s.p.marks[c], s.p.marks[m].at))
  }

  /** A marking of this key that Redis still honours. */
  predicate Guards(k: Marking.Mark, key: string, now: Clock) {
    k.key == key && !Marking.Over(k, now)
  }

  predicate Guarded(s: State, key: string) {
    exists m :: 0 <= m < |s.p.marks| && Guards(s.p.marks[m], key, s.now)
  }

  /** In every reachable state a poll of a due slot has no effect iff some marking of the slot is neither
      expired nor dropped; otherwise it marks the slot and holds the payload to append. */
  lemma PollSkippedIff(sys: System, s: State, timely: bool, p: nat, at: Instant, key: string)
    requires Reachable(sys, s, timely) && Enabled(sys, s, Produce(Marking.Poll(p, at))) && DueWithKey(sys.producers(p), at, key)
    ensures Guarded(s, key) ==> Step(sys, s, Produce(Marking.Poll(p, at))) == s
    ensures !Guarded(s, key) ==> Marking.At(Step(sys, s, Produce(Marking.Poll(p, at))).p, p) == Marking.Marked(|s.p.marks|)
  {
    hide Leasing.Inv, ProducerKey, BuildPayload;
    ReachableInv(sys, s, timely);
    if Marking.Live(s.p.markers, key, s.now) {
      assert Guards(s.p.marks[s.p.markers[key].mark], key, s.now);
    }
    if Guarded(s, key) {
      var m: nat :| m < |s.p.marks| && Guards(s.p.marks[m], key, s.now);
      assert Marking.MarkOk(sys.producers, s.p, m, s.now);
      assert s.p.markers[key] == Marking.Marker(m, s.p.marks[m].until);
    }
  }

  /** Where no marking guards the key, any resting producer for which the slot is due adds an entry at once,
      whatever entries the dropped markings left. */
  lemma UnguardedSlotRepeats(sys: System, s: State, timely: bool, p: nat, at: Instant, key: string) returns (t: State)
    requires Reachable(sys, s, timely) && Marking.At(s.p, p).Resting? && DueWithKey(sys.producers(p), at, key) && !Guarded(s, key)
    ensures Reachable(sys, t, timely) && t.now == s.now
    ensures s.p.marks <= t.p.marks && s.p.stream <= t.p.stream && s.p.origins <= t.p.origins
    ensures Queued(t, |s.p.origins|, |s.p.marks|) && t.p.marks[|s.p.marks|].key == key && t.p.marks[|s.p.marks|].at == s.now
  {
    hide ProducerKey, BuildPayload, Reachable, Leasing.Inv;
    ReachableInv(sys, s, timely);
    PollSkippedIff(sys, s, timely, p, at, key);
    ReachMore(sys, s, Produce(Marking.Poll(p, at)), timely);
    var u := Step(sys, s, Produce(Marking.Poll(p, at)));
    ReachMore(sys, u, Produce(Marking.Append(p)), timely);
    t := Step(sys, u, Produce(Marking.Append(p)));
  }

  // ---------------------------------------------------------------- witnesses

  lemma ReachMore(sys: System, s: State, a: Action, timely: bool)
    requires Reachable(sys, s, timely) && Enabled(sys, s, a) && (timely ==> Timely(s, a))
    ensures Reachable(sys, Step(sys, s, a), timely)
  {
    hide Step, Enabled, Timely;
    var acts :| After(sys, Initial, acts, timely) == Some(s);
    assert (acts + [a])[..|acts|] == acts;
    assert After(sys, Initial, acts + [a], timely) == Some(Step(sys, s, a));
  }

  lemma InitialReachable(sys: System, timely: bool)
    ensures Reachable(sys, Initial, timely)
  {
    assert After(sys, Initial, [], timely) == Some(Initial);
  }

  /** A definition, a time it is due at, and the key of that slot. */
  predicate DueWithKey(d: Definition, at: Instant, key: string) {
    ProducerKey(d, at) == Some(key) && |key| <= Leasing.MAX_KEY
  }

  lemma KeyOfQueued(d: Definition, at: Instant, key: string)
    requires DueWithKey(d, at, key)
    ensures Leasing.KeyOf(d, BuildPayload(d, at)) == Ok(Some((key, at)))
  {
    hide BuildPayload, ValidatePayload, RunKey, ScheduledFor;
    PayloadRoundTrip(d, at);
  }

  /** The stream holds one entry for the slot, put there by producer 0. */
  function OneQueued(d: Definition, at: Instant, key: string): Marking.State {
    Marking.State(map[key := Marking.Marker(0, Marking.MARKER_RETENTION)],
                  [Marking.Mark(key, 0, at, BuildPayload(d, at), 0, Marking.MARKER_RETENTION, Some(0), 0, None)],
                  map[0 := Marking.Resting], [BuildPayload(d, at)], [Some(0)])
  }

  lemma OneQueuedReachable(sys: System, at: Instant, key: string)
    requires DueWithKey(sys.producers(0), at, key)
    ensures Reachable(sys, State(0, OneQueued(sys.producers(0), at, key), Leasing.Empty), true)
  {
    hide ProducerKey, BuildPayload, Reachable;
    InitialReachable(sys, true);
    ReachMore(sys, Initial, Produce(Marking.Poll(0, at)), true);
    var s := Step(sys, Initial, Produce(Marking.Poll(0, at)));
    ReachMore(sys, s, Produce(Marking.Append(0)), true);
    assert Step(sys, s, Produce(Marking.Append(0))).p == OneQueued(sys.producers(0), at, key);
  }

  /** Worker 0 has claimed the slot at time `c.claimAfter` and crashed. */
  function Abandoned(c: Leasing.Config, key: string): Leasing.State {
    var until := c.claimAfter + Leasing.LeaseOf(c.definition(0));
    Leasing.State(map[key := Leasing.Entry(Leasing.Running(0), until)],
                  [Leasing.Claim(key, 0, 0, c.claimAfter, until, None, None)],
                  1, map[0 := Leasing.Delivery(0, 0)], map[0 := Leasing.Stopped], map[], [])
  }

  lemma AbandonedReachable(sys: System, at: Instant, key: string)
    requires DueWithKey(sys.producers(0), at, key) && sys.workers.definition(0) == sys.producers(0)
    ensures Reachable(sys, State(sys.workers.claimAfter, OneQueued(sys.producers(0), at, key), Abandoned(sys.workers, key)), true)
  {
    hide ProducerKey, BuildPayload, Reachable, Leasing.KeyOf;
    OneQueuedReachable(sys, at, key);
    KeyOfQueued(sys.producers(0), at, key);
    var s0 := State(0, OneQueued(sys.producers(0), at, key), Leasing.Empty);
    ReachMore(sys, s0, Work(Leasing.Deliver(0)), true);
    var s1 := Step(sys, s0, Work(Leasing.Deliver(0)));
    ReachMore(sys, s1, Tick(sys.workers.claimAfter), true);
    var s2 := Step(sys, s1, Tick(sys.workers.claimAfter));
    ReachMore(sys, s2, Work(Leasing.Get(0)), true);
    var s3 := Step(sys, s2, Work(Leasing.Get(0)));
    ReachMore(sys, s3, Work(Leasing.SetNx(0)), true);
    var s4 := Step(sys, s3, Work(Leasing.SetNx(0)));
    ReachMore(sys, s4, Work(Leasing.Stop(0)), true);
    assert Step(sys, s4, Work(Leasing.Stop(0))).w == Abandoned(sys.workers, key);
  }

  /** For every schedule, due time and redelivery timeout, a job can be lost: its owner crashes before it
      enters the executor, a second worker finds the key in progress and acknowledges, and nothing is
      queued or pending any more. */
  lemma JobCanBeLost(sys: System, at: Instant, key: string) returns (s: State)
    requires DueWithKey(sys.producers(0), at, key)
    requires sys.workers.definition(0) == sys.producers(0) && sys.workers.definition(1) == sys.producers(0)
    ensures Reachable(sys, s, true)
    ensures |s.p.stream| == 1 && s.w.delivered == 1 && s.w.pending == map[]
    ensures |s.w.acks| == 1 && s.w.acks[0].job == 0
    ensures |s.w.claims| == 1 && s.w.claims[0].key == key && s.w.claims[0].entered.None? && s.w.claims[0].done.None?
    ensures Leasing.At(s.w, 0).Stopped? && Leasing.At(s.w, 1).Idle?
  {
    hide ProducerKey, BuildPayload, Reachable, Leasing.KeyOf;
    AbandonedReachable(sys, at, key);
    KeyOfQueued(sys.producers(0), at, key);
    var s0 := State(sys.workers.claimAfter, OneQueued(sys.producers(0), at, key), Abandoned(sys.workers, key));
    ReachMore(sys, s0, Work(Leasing.AutoClaim(1, 0)), true);
    var s1 := Step(sys, s0, Work(Leasing.AutoClaim(1, 0)));
    ReachMore(sys, s1, Work(Leasing.Get(1)), true);
    var s2 := Step(sys, s1, Work(Leasing.Get(1)));
    assert Leasing.At(s2.w, 1) == Leasing.Deciding(0, Leasing.Occupied(0, s1.now, false, s1.w.claims));
    ReachMore(sys, s2, Work(Leasing.Acknowledge(1)), true);
    s := Step(sys, s2, Work(Leasing.Acknowledge(1)));
  }

  /** Worker 0 is inside the executor, and its job has been pending for long enough to be delivered again. */
  lemma OverdueReachable(sys: System, at: Instant, key: string, wait: Clock) returns (s: State)
    requires DueWithKey(sys.producers(0), at, key)
    requires sys.workers.definition(0) == sys.producers(0) && sys.producers(0).permissionsMode == "read_only"
    requires sys.producers(0).expiresAt.Some? ==> at < sys.producers(0).expiresAt.value
    ensures Reachable(sys, s, true) && s.now == wait && s.p == OneQueued(sys.producers(0), at, key)
    ensures s.w.claims == [Leasing.Claim(key, 0, 0, 0, Leasing.LeaseOf(sys.producers(0)), Some(0), None)]
    ensures s.w.runs == map[key := Leasing.Entry(Leasing.Running(0), Leasing.LeaseOf(sys.producers(0)))]
    ensures s.w.workers == map[0 := Leasing.Executing(0, key, 0)] && s.w.pending == map[0 := Leasing.Delivery(0, 0)] && s.w.histories == map[]
  {
    hide ProducerKey, BuildPayload, Reachable, Leasing.KeyOf, Leasing.LeaseOf;
    OneQueuedReachable(sys, at, key);
    KeyOfQueued(sys.producers(0), at, key);
    var s0 := State(0, OneQueued(sys.producers(0), at, key), Leasing.Empty);
    ReachMore(sys, s0, Work(Leasing.Deliver(0)), true);
    var s1 := Step(sys, s0, Work(Leasing.Deliver(0)));
    ReachMore(sys, s1, Work(Leasing.Get(0)), true);
    var s2 := Step(sys, s1, Work(Leasing.Get(0)));
    ReachMore(sys, s2, Work(Leasing.SetNx(0)), true);
    var s3 := Step(sys, s2, Work(Leasing.SetNx(0)));
    ReachMore(sys, s3, Work(Leasing.Enter(0)), true);
    var s4 := Step(sys, s3, Work(Leasing.Enter(0)));
    ReachMore(sys, s4, Tick(wait), true);
    s := Step(sys, s4, Tick(wait));
  }

  /** Such an entry is real: an executor that outlives its lease is entered a second time for the same slot
      and the same job by another worker, as soon as lease and redelivery timeout have passed. */
  lemma ExecutorOutlivesLease(sys: System, at: Instant, key: string, wait: Clock) returns (s: State)
    requires DueWithKey(sys.producers(0), at, key) && sys.producers(0).permissionsMode == "read_only"
    requires sys.producers(0).expiresAt.Some? ==> at < sys.producers(0).expiresAt.value
    requires sys.workers.definition(0) == sys.producers(0) && sys.workers.definition(1) == sys.producers(0)
    requires wait >= Leasing.LeaseOf(sys.producers(0)) && wait >= sys.workers.claimAfter
    ensures Reachable(sys, s, true) && s.now == wait
    ensures Leasing.At(s.w, 0) == Leasing.Executing(0, key, 0) && Leasing.At(s.w, 1) == Leasing.Executing(0, key, 1)
    ensures |s.w.claims| == 2 && s.w.claims[0].entered == Some(0) && s.w.claims[1].entered == Some(wait)
    ensures s.w.claims[0].key == key && s.w.claims[1].key == key
  {
    hide ProducerKey, BuildPayload, Reachable, Leasing.KeyOf, Leasing.LeaseOf;
    KeyOfQueued(sys.producers(0), at, key);
    var s0 := OverdueReachable(sys, at, key, wait);
    ReachMore(sys, s0, Work(Leasing.AutoClaim(1, 0)), true);
    var s1 := Step(sys, s0, Work(Leasing.AutoClaim(1, 0)));
    ReachMore(sys, s1, Work(Leasing.Get(1)), true);
    var s2 := Step(sys, s1, Work(Leasing.Get(1)));
    ReachMore(sys, s2, Work(Leasing.SetNx(1)), true);
    var s3 := Step(sys, s2, Work(Leasing.SetNx(1)));
    ReachMore(sys, s3, Work(Leasing.Enter(1)), true);
    s := Step(sys, s3, Work(Leasing.Enter(1)));
  }

  /** The XADD of a timely producer takes effect, but its reply is lost: it frees the marker, polls again, and
      queues the slot a second time in the same millisecond. */
  lemma LostReplyDuplicates(sys: System, at: Instant, key: string) returns (s: State)
    requires DueWithKey(sys.producers(0), at, key)
    ensures Reachable(sys, s, true) && s.now == 0
    ensures Queued(s, 0, 0) && Queued(s, 1, 1) && s.p.marks[0].key == key && s.p.marks[1].key == key
    ensures s.p.marks[0].dropped == Some(Marking.Drop(0, 0)) && DroppedUnder(s.p.marks[0], s.p.marks[1])
  {
    hide ProducerKey, BuildPayload, Reachable;
    InitialReachable(sys, true);
    ReachMore(sys, Initial, Produce(Marking.Poll(0, at)), true);
    var s1 := Step(sys, Initial, Produce(Marking.Poll(0, at)));
    ReachMore(sys, s1, Produce(Marking.AppendLost(0)), true);
    var s2 := Step(sys, s1, Produce(Marking.AppendLost(0)));
    ReachMore(sys, s2, Produce(Marking.Free(0)), true);
    var s3 := Step(sys, s2, Produce(Marking.Free(0)));
    assert !Guarded(s3, key);
    s := UnguardedSlotRepeats(sys, s3, true, 0, at, key);
    assert s.p.origins[0] == s3.p.origins[0];
  }

  /** Appends must be timely: a producer that stalls for a marker lifetime adds its entry in the same
      millisecond as another producer that has renewed the marker, and no DEL was ever issued. */
  lemma StalledProducerDuplicates(sys: System, at: Instant, key: string) returns (s: State)
    requires DueWithKey(sys.producers(0), at, key) && sys.producers(1) == sys.producers(0)
    ensures Reachable(sys, s, false)
    ensures Queued(s, 0, 1) && Queued(s, 1, 0)
    ensures s.p.marks[0].key == key && s.p.marks[1].key == key && Marking.Live(s.p.markers, key, s.now)
    ensures s.p.marks[0].added == s.p.marks[1].added && s.p.marks[0].dropped.None? && s.p.marks[1].dropped.None?
    ensures Late(s.p.marks[0]) && !LifetimesApart(s.p.marks[0], s.p.marks[1])
  {
    hide ProducerKey, BuildPayload, Reachable;
    InitialReachable(sys, false);
    ReachMore(sys, Initial, Produce(Marking.Poll(0, at)), false);
    var s1 := Step(sys, Initial, Produce(Marking.Poll(0, at)));
    ReachMore(sys, s1, Tick(Marking.MARKER_RETENTION), false);
    var s2 := Step(sys, s1, Tick(Marking.MARKER_RETENTION));
    ReachMore(sys, s2, Produce(Marking.Poll(1, at)), false);
    var s3 := Step(sys, s2, Produce(Marking.Poll(1, at)));
    ReachMore(sys, s3, Produce(Marking.Append(1)), false);
    var s4 := Step(sys, s3, Produce(Marking.Append(1)));
    ReachMore(sys, s4, Produce(Marking.Append(0)), false);
    s := Step(sys, s4, Produce(Marking.Append(0)));
  }

  /** So must frees be: a producer whose append failed, and which frees its marker a lifetime late, removes the
      marker that another one has just renewed, and the slot is queued twice by markings of one millisecond,
      both appended in time by a producer none of whose commands failed. */
  lemma LateFreeDuplicates(sys: System, at: Instant, key: string) returns (s: State)
    requires DueWithKey(sys.producers(0), at, key) && sys.producers(1) == sys.producers(0)
    ensures Reachable(sys, s, false)
    ensures Queued(s, 0, 1) && Queued(s, 1, 2) && s.p.marks[1].key == key && s.p.marks[2].key == key
    ensures s.p.marks[1].at == s.p.marks[2].at && s.p.marks[1].producer == 1 && s.p.marks[2].producer == 1
    ensures s.p.marks[1].dropped == Some(Marking.Drop(0, s.now)) && DroppedUnder(s.p.marks[1], s.p.marks[2])
    ensures !Late(s.p.marks[1]) && !Late(s.p.marks[2])
  {
    hide ProducerKey, BuildPayload, Reachable;
    var s4 := LateFree(sys, at, key);
    ReachMore(sys, s4, Produce(Marking.Free(0)), false);
    var s5 := Step(sys, s4, Produce(Marking.Free(0)));
    ReachMore(sys, s5, Produce(Marking.Poll(1, at)), false);
    var s6 := Step(sys, s5, Produce(Marking.Poll(1, at)));
    ReachMore(sys, s6, Produce(Marking.Append(1)), false);
    s := Step(sys, s6, Produce(Marking.Append(1)));
  }

  /** Producer 0 is about to free its marker late, and producer 1 has queued the slot meanwhile. */
  lemma LateFree(sys: System, at: Instant, key: string) returns (s: State)
    requires DueWithKey(sys.producers(0), at, key) && sys.producers(1) == sys.producers(0)
    ensures Reachable(sys, s, false) && |s.p.marks| == 2 && |s.p.stream| == 1 && s.p.origins == [Some(1)]
    ensures Marking.At(s.p, 0) == Marking.Failed(0) && Marking.At(s.p, 1).Resting?
    ensures s.p.marks[0].key == key && s.p.marks[1].key == key && s.p.marks[1].at == s.now && s.p.marks[1].dropped.None?
    ensures s.p.marks[1].producer == 1 && s.p.marks[1].added == s.now && s.p.marks[1].until == s.now + Marking.MARKER_RETENTION
    ensures key in s.p.markers && s.p.markers[key] == Marking.Marker(1, s.p.marks[1].until)
  {
    hide ProducerKey, BuildPayload, Reachable;
    InitialReachable(sys, false);
    ReachMore(sys, Initial, Produce(Marking.Poll(0, at)), false);
    var s1 := Step(sys, Initial, Produce(Marking.Poll(0, at)));
    ReachMore(sys, s1, Produce(Marking.AppendFails(0)), false);
    var s2 := Step(sys, s1, Produce(Marking.AppendFails(0)));
    ReachMore(sys, s2, Tick(Marking.MARKER_RETENTION), false);
    var s3 := Step(sys, s2, Tick(Marking.MARKER_RETENTION));
    ReachMore(sys, s3, Produce(Marking.Poll(1, at)), false);
    var s4 := Step(sys, s3, Produce(Marking.Poll(1, at)));
    ReachMore(sys, s4, Produce(Marking.Append(1)), false);
    s := Step(sys, s4, Produce(Marking.Append(1)));
  }
}
