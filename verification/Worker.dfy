/** `_consume_job` and `enqueue_due` as programs over a shared Redis, with the other processes running
    between any two of their commands. */
module Worker {
  import opened IsoTime
  import opened Schedule
  import opened Cron
  import opened Pipeline
  import Marking
  import Leasing
  import Machine = SchedulerMachine

  /** The process whose program is being followed. */
  datatype Actor = OfWorker(w: nat) | OfProducer(p: nat)

  predicate NotOf(a: Action, me: Actor) {
    match me
    case OfWorker(w) => a.Work? ==> a.b.w != w
    case OfProducer(p) => a.Produce? && !a.a.Inject? ==> a.a.p != p
  }

  /** `t` follows from `s` by steps of the clock and of every other process. */
  ghost predicate ByOthers(sys: System, s: State, t: State, me: Actor) {
    exists acts: seq<Action> :: After(sys, s, acts, false) == Some(t) && forall a <- acts :: NotOf(a, me)
  }

  ghost predicate Leads(sys: System, s: State, t: State) {
    exists acts :: After(sys, s, acts, false) == Some(t)
  }

  lemma {:induction false} AfterConcat(sys: System, s: State, xs: seq<Action>, ys: seq<Action>)
    requires After(sys, s, xs, false).Some?
    ensures After(sys, s, xs + ys, false) == After(sys, After(sys, s, xs, false).value, ys, false)
    decreases |ys|
  {
    hide Step, Enabled, Timely;
    if ys == [] {
      assert xs + ys == xs;
    } else {
      var front := ys[..|ys| - 1];
      AfterConcat(sys, s, xs, front);
      assert (xs + ys)[..|xs + ys| - 1] == xs + front;
    }
  }

  lemma LeadsOn(sys: System, s: State, t: State, u: State)
    requires Leads(sys, s, t) && Leads(sys, t, u)
    ensures Leads(sys, s, u)
  {
    hide Step, Enabled, Timely, After;
    var xs :| After(sys, s, xs, false) == Some(t);
    var ys :| After(sys, t, ys, false) == Some(u);
    AfterConcat(sys, s, xs, ys);
  }

  lemma LeadsStep(sys: System, s: State, a: Action)
    requires Enabled(sys, s, a)
    ensures Leads(sys, s, Step(sys, s, a))
  {
    hide Step, Enabled, Timely;
    assert [a][..0] == [];
    assert After(sys, s, [], false) == Some(s);
    assert After(sys, s, [a], false) == Some(Step(sys, s, a));
  }

  /** What the other processes cannot change. */
  ghost predicate Undisturbed(s: State, t: State, me: Actor) {
    && s.w.acks <= t.w.acks && s.p.stream <= t.p.stream
    && match me
       case OfWorker(w) => Leasing.At(t.w, w) == Leasing.At(s.w, w)
       case OfProducer(p) =>
         && Marking.At(t.p, p) == Marking.At(s.p, p)
         && (Marking.MarkOf(s.p, p) < |s.p.marks| ==>
               Marking.MarkOf(t.p, p) < |t.p.marks| && t.p.marks[Marking.MarkOf(t.p, p)].payload == s.p.marks[Marking.MarkOf(s.p, p)].payload)
  }

  lemma {:induction false} OthersKeep(sys: System, s: State, acts: seq<Action>, me: Actor)
    requires Inv(sys, s, false) && After(sys, s, acts, false).Some? && forall a <- acts :: NotOf(a, me)
    ensures Undisturbed(s, After(sys, s, acts, false).value, me)
    decreases |acts|
  {
    hide Step, Enabled, Timely, Inv;
    if acts != [] {
      var front := acts[..|acts| - 1];
      assert forall a <- front :: a in acts;
      OthersKeep(sys, s, front, me);
      RunInv(sys, s, front, false);
      OtherStepKeeps(sys, After(sys, s, front, false).value, acts[|acts| - 1], me);
    }
  }

  lemma KeptByOthers(s: State, t: State, w: nat)
    requires Undisturbed(s, t, OfWorker(w))
    ensures Leasing.At(t.w, w) == Leasing.At(s.w, w) && s.w.acks <= t.w.acks
  {}

  lemma OtherStepKeeps(sys: System, s: State, a: Action, me: Actor)
    requires Inv(sys, s, false) && Enabled(sys, s, a) && NotOf(a, me)
    ensures Undisturbed(s, Step(sys, s, a), me)
  {
    hide Marking.Inv, Marking.Step, Leasing.Step, Leasing.Enabled, Leasing.ClaimsOk, Leasing.WorkerOk, Leasing.Justified;
    if a.Work? { Leasing.StepBookkeeping(sys.workers, s.w, a.b, s.now, s.p.stream); }
    if a.Produce? { ProducersApart(sys, s, a.a, me); }
  }

  lemma ProducersApart(sys: System, s: State, a: Marking.Action, me: Actor)
    requires Marking.Inv(sys.producers, s.p, s.now) && Marking.Enabled(s.p, a) && NotOf(Produce(a), me)
    ensures Undisturbed(s, s.(p := Marking.Step(sys.producers, s.p, a, s.now)), me)
  {
    hide ProducerKey, BuildPayload, Marking.MarkersOk, Marking.StreamOk;
  }

  /** A Redis command answers; raises without effect; or takes effect, but raises as its reply is lost. */
  datatype Fate = Answered | Refused | ReplyLost

  /** The executor-calling decision of a worker's step is `Scheduler.trigger`'s own, for a scheduler that
      was created with the worker's definition and only ever triggered. */
  lemma EnterAgreesWithTrigger(c: Leasing.Config, s: Leasing.State, w: nat, now: Leasing.Clock, scheduler: Machine.State, finding: bool)
    requires Leasing.At(s, w).Owner?
    requires var d := c.definition(w);
             var Owner(job, key, at, token) := Leasing.At(s, w);
             && Due(d, at) && key == RunKey(d.id, Slot(d, at)) && d.maxConcurrency > 0
             && scheduler.defs == map[d.id := d] && scheduler.paused == {} && scheduler.cancelled == {}
             && scheduler.active == map[] && scheduler.frames == [] && scheduler.history.Keys == Leasing.History(s, w)
    ensures var d := c.definition(w);
            var Owner(job, key, at, token) := Leasing.At(s, w);
            var triggered := Machine.Started(scheduler, d.id, at, false, finding);
            var entered := Leasing.EnterStep(c, s, w, now);
            && (Leasing.At(entered, w).Executing? <==> triggered.frames != [])
            && (triggered.frames != [] ==> Machine.Top(triggered).key == key)
            && (triggered.frames == [] ==> Leasing.At(entered, w).Ran? && Leasing.At(entered, w).recorded in triggered.history)
            && triggered.history.Keys == Leasing.History(entered, w)
  {
    hide RunKey, Slot, Iso;
  }

  /** Why `_consume_job` raises: a Redis command raises, the payload or its key is refused, or the claim was
      lost before its completion. */
  datatype Cause = Broken | Invalid | Lost
  datatype Outcome = Acknowledged(reason: Leasing.Reason) | Raised(cause: Cause)

  /** What `enqueue_due` does: true, false, or an exception. */
  datatype Report = Queued | Skipped | Failed

  /** The key of a poll; `Error` where the slot computation or the check of the key's length raises. */
  function PollKey(d: Definition, at: Instant): Result<Option<string>> {
    match ScheduledFor(d, at)
    case Error => Error
    case Ok(None) => Ok(None)
    case Ok(Some(slot)) => if |RunKey(d.id, slot)| > Marking.MAX_KEY then Error else Ok(Some(RunKey(d.id, slot)))
  }

  /** A poll has a key exactly if its slot is due and the key short enough, and nothing to do exactly if a
      one-shot schedule's time lies ahead. */
  lemma PollKeyIff(d: Definition, at: Instant, key: string)
    ensures PollKey(d, at) == Ok(Some(key)) <==> Due(d, at) && key == RunKey(d.id, Slot(d, at)) && |key| <= 256
    ensures PollKey(d, at) == Ok(None) <==>
            d.scheduleType == "one_shot" && InRange(at + SECOND * d.offset) && d.at.Some? && at < d.at.value
  {
    NotDueIff(d, at);
    hide RunKey, ScheduledFor;
  }

  /** The steps of a producer that has marked its slot. */
  function AfterMarking(p: nat, mark: Fate, add: Fate, free: Fate): seq<Marking.Action> {
    if !mark.Answered? then [Marking.Crash(p)]
    else
      var freeing := if free.Refused? then Marking.Crash(p) else Marking.Free(p);
      match add
      case Answered => [Marking.Append(p)]
      case Refused => [Marking.AppendFails(p), freeing]
      case ReplyLost => [Marking.AppendLost(p), freeing]
  }

  /** `t` follows from `s` by these steps of producer `p`, with any steps of everyone else after each. */
  ghost predicate Performed(sys: System, s: State, own: seq<Marking.Action>, t: State, p: nat)
    decreases |own|
  {
    if own == [] then t == s
    else
      var front, a := own[..|own| - 1], own[|own| - 1];
      exists u :: Performed(sys, s, front, u, p) && Follows(sys, u, a, t, p)
  }

  ghost predicate Follows(sys: System, s: State, a: Marking.Action, t: State, p: nat) {
    Enabled(sys, s, Produce(a)) && ByOthers(sys, Step(sys, s, Produce(a)), t, OfProducer(p))
  }

  lemma PerformedNothing(sys: System, s: State, p: nat)
    ensures Performed(sys, s, [], s, p)
  {}

  lemma PerformedMore(sys: System, s: State, own: seq<Marking.Action>, u: State, a: Marking.Action, t: State, p: nat)
    requires Performed(sys, s, own, u, p) && Follows(sys, u, a, t, p)
    ensures Performed(sys, s, own + [a], t, p)
  {
    hide Follows;
    assert (own + [a])[..|own|] == own;
  }

  /** The slot is due, which for a one-shot schedule means that its time has come. */
  predicate DueAt(d: Definition, at: Instant) {
    Due(d, at) && (d.scheduleType == "one_shot" ==> d.at.Some? && d.at.value <= at)
  }

  lemma UnmarkedIsDue(sys: System, s: State, p: nat, at: Instant)
    ensures Unmarked(sys, s, p, at) ==> DueAt(sys.producers(p), at)
  {
    NotDueIff(sys.producers(p), at);
    hide ScheduledFor, RunKey;
    if Unmarked(sys, s, p, at) && sys.producers(p).scheduleType == "one_shot" { OneShotIsTimed(sys.producers(p), at); }
  }

  lemma OneShotIsTimed(d: Definition, at: Instant)
    requires Due(d, at) && d.scheduleType == "one_shot"
    ensures d.at.Some? && d.at.value <= at
  {}

  lemma PollKeyIs(sys: System, s: State, p: nat, at: Instant)
    ensures Unmarked(sys, s, p, at) ==> PollKey(sys.producers(p), at).Ok? && PollKey(sys.producers(p), at).value.Some?
  {
    hide RunKey, ScheduledFor;
  }

  class Cluster {
    const sys: System
    var state: State

    ghost predicate Valid()
      reads this
    {
      Inv(sys, state, false)
    }

    constructor (sys: System)
      ensures Valid() && state == Initial && this.sys == sys
    {
      this.sys := sys;
      state := Initial;
      new;
      InitialInv(sys);
    }

    /** One step of the machine. */
    method Perform(a: Action)
      requires Valid() && Enabled(sys, state, a)
      modifies this`state
      ensures Valid() && state == Step(sys, old(state), a) && Leads(sys, old(state), state)
    {
      StepInv(sys, state, a, false);
      LeadsStep(sys, state, a);
      state := Step(sys, state, a);
    }

    /** Any number of steps by everyone but this process. */
    method Others(ghost me: Actor)
      requires Valid()
      modifies this`state
      ensures Valid() && ByOthers(sys, old(state), state, me)
    {
      assert After(sys, state, [], false) == Some(state);
    }

    /** The next command of worker `w` with its fate, and what the others do afterwards. */
    method Next(w: nat, fate: Fate)
      requires Valid() && Busy(Leasing.At(state.w, w))
      modifies this`state
      ensures Valid() && Leads(sys, old(state), state)
      ensures Leasing.At(state.w, w) == Leasing.At(AfterNext(sys, old(state), w, fate).w, w)
      ensures AfterNext(sys, old(state), w, fate).w.acks <= state.w.acks
      ensures Moves(Leasing.At(old(state).w, w), fate, Leasing.At(state.w, w))
    {
      hide After, Inv, Step, Enabled, Undisturbed, Moves;
      ghost var start := state;
      Ready(sys, state, w);
      NextMoves(sys, state, w, fate);
      StopEnabled(sys, state, w);
      if fate.Refused? {
        Perform(Work(Leasing.Stop(w)));
      } else {
        Perform(Work(NextCommand(Leasing.At(state.w, w), w)));
        if fate.ReplyLost? {
          ghost var done := state;
          StopEnabled(sys, state, w);
          Perform(Work(Leasing.Stop(w)));
          LeadsOn(sys, start, done, state);
        }
      }
      ghost var mid := state;
      Others(OfWorker(w));
      ghost var acts :| After(sys, mid, acts, false) == Some(state) && forall a <- acts :: NotOf(a, OfWorker(w));
      OthersKeep(sys, mid, acts, OfWorker(w));
      KeptByOthers(mid, state, w);
      LeadsOn(sys, start, mid, state);
    }

    /** A command of producer `p`, and what the others do afterwards. */
    method ProducerCommand(p: nat, a: Marking.Action)
      requires Valid() && !a.Inject? && a.p == p && Enabled(sys, state, Produce(a))
      modifies this`state
      ensures Valid() && Leads(sys, old(state), state)
      ensures Undisturbed(Step(sys, old(state), Produce(a)), state, OfProducer(p))
      ensures ByOthers(sys, Step(sys, old(state), Produce(a)), state, OfProducer(p))
    {
      hide After, Inv, Step, Enabled, Undisturbed;
      ghost var start := state;
      Perform(Produce(a));
      ghost var mid := state;
      Others(OfProducer(p));
      ghost var acts :| After(sys, mid, acts, false) == Some(state) && forall a <- acts :: NotOf(a, OfProducer(p));
      OthersKeep(sys, mid, acts, OfProducer(p));
      LeadsOn(sys, start, mid, state);
    }

    /** `enqueue_due` with `enqueue_once`, whose SET NX, XADD and DEL meet these fates. The poll takes exactly
        the steps that its key and these fates call for, with everyone else's in between. It reports the slot
        as queued iff the slot is due and unmarked and both SET NX and XADD answer, and as skipped iff it is
        not due or SET NX answers that it is marked; else it raises. */
    method EnqueueDue(p: nat, at: Instant, mark: Fate, add: Fate, free: Fate) returns (r: Report, ghost own: seq<Marking.Action>)
      requires Valid() && Marking.At(state.p, p).Resting?
      modifies this`state
      ensures Valid() && Leads(sys, old(state), state) && Marking.At(state.p, p).Resting?
      ensures r.Queued? <==> mark.Answered? && add.Answered? && Unmarked(sys, old(state), p, at)
      ensures r.Skipped? <==>
                PollKey(sys.producers(p), at) == Ok(None) ||
                (mark.Answered? && PollKey(sys.producers(p), at).Ok? && !Unmarked(sys, old(state), p, at))
      ensures r.Queued? ==> DueAt(sys.producers(p), at)
      ensures Performed(sys, old(state), own, state, p)
      ensures own == if mark.Refused? || PollKey(sys.producers(p), at) in {Error, Ok(None)} then []
                     else [Marking.Poll(p, at)] + if Unmarked(sys, old(state), p, at) then AfterMarking(p, mark, add, free) else []
      ensures mark.Answered? && !add.Refused? && Unmarked(sys, old(state), p, at) ==>
                HasEntry(old(state).p.stream, state.p.stream, BuildPayload(sys.producers(p), at))
    {
      hide After, Inv, Step, Leads, BuildPayload, ProducerKey, ValidatePayload, Unmarked, HasEntry, ByOthers, ScheduledFor, Performed, DueAt;
      ghost var start := state;
      var key := PollKey(sys.producers(p), at);
      PollKeyIs(sys, state, p, at);
      UnmarkedIsDue(sys, state, p, at);
      LeadsNowhere(sys, state);
      PerformedNothing(sys, state, p);
      if key.Error? {
        return Failed, [];
      }
      if key.value.None? {
        return Skipped, [];
      }
      if mark.Refused? {
        return Failed, [];
      }
      PollOutcome(sys, state, p, at);
      own := Command(p, Marking.Poll(p, at), start, []);
      if Marking.At(state.p, p).Resting? {
        return if mark.Answered? then Skipped else Failed, own;
      }
      ProducerMarked(sys, state, p);
      if mark.ReplyLost? {
        own := Command(p, Marking.Crash(p), start, own);
        return Failed, own;
      }
      own := Enqueue(p, add, free, start, own);
      return if add.Answered? then Queued else Failed, own;
    }

    /** `enqueue` of a marked slot, which frees the marker when it raises. */
    method Enqueue(p: nat, add: Fate, free: Fate, ghost start: State, ghost own: seq<Marking.Action>) returns (ghost more: seq<Marking.Action>)
      requires Valid() && Marking.At(state.p, p).Marked? && Marking.MarkOf(state.p, p) < |state.p.marks|
      requires Performed(sys, start, own, state, p) && Leads(sys, start, state) && start.p.stream <= state.p.stream
      modifies this`state
      ensures Valid() && Leads(sys, start, state) && Performed(sys, start, more, state, p)
      ensures Marking.At(state.p, p).Resting? && more == own + AfterMarking(p, Answered, add, free)
      ensures !add.Refused? ==> HasEntry(start.p.stream, state.p.stream, old(state).p.marks[Marking.MarkOf(old(state).p, p)].payload)
    {
      hide After, Inv, Step, Leads, HasEntry, ByOthers, Performed;
      ghost var marked := state;
      ProducerMarked(sys, state, p);
      if add.Answered? {
        more := Command(p, Marking.Append(p), start, own);
        AppendsEntry(sys, start, marked, Marking.Append(p), state);
        return;
      }
      more := Command(p, if add.Refused? then Marking.AppendFails(p) else Marking.AppendLost(p), start, own);
      ghost var failed := state;
      if add.ReplyLost? {
        AppendsEntry(sys, start, marked, Marking.AppendLost(p), state);
      }
      ProducerFailed(sys, state, p);
      more := Command(p, if free.Refused? then Marking.Crash(p) else Marking.Free(p), start, more);
      EntryStays(start.p.stream, failed.p.stream, state.p.stream, marked.p.marks[Marking.MarkOf(marked.p, p)].payload);
    }

    /** One more command of producer `p` after the ones it has performed since `start`. */
    method Command(p: nat, a: Marking.Action, ghost start: State, ghost own: seq<Marking.Action>) returns (ghost more: seq<Marking.Action>)
      requires Valid() && !a.Inject? && a.p == p && Enabled(sys, state, Produce(a))
      requires Performed(sys, start, own, state, p) && Leads(sys, start, state)
      modifies this`state
      ensures Valid() && Leads(sys, start, state) && more == own + [a] && Performed(sys, start, more, state, p)
      ensures Undisturbed(Step(sys, old(state), Produce(a)), state, OfProducer(p))
    {
      hide After, Inv, Step, Enabled, Undisturbed, Leads, ByOthers, Performed;
      ghost var before := state;
      ProducerCommand(p, a);
      LeadsOn(sys, start, before, state);
      more := own + [a];
      PerformedMore(sys, start, own, before, a, state, p);
    }

    /** Validation and slot computation, then `claim_run`, whose GET, SET NX and second GET meet the fates 0 to 2. */
    method ClaimRun(w: nat, fate: nat -> Fate)
      requires Valid() && Leasing.At(state.w, w).Got?
      modifies this`state
      ensures Valid() && Leads(sys, old(state), state)
      ensures var pc := Leasing.At(state.w, w);
              && (pc.Stopped? || ((pc.Owner? || pc.Deciding?) && pc.job == Leasing.At(old(state).w, w).job))
              && (pc.Deciding? ==> !pc.reason.OwnCompletion?)
      ensures var pc, known := Leasing.At(state.w, w), JobKey(sys, old(state), w);
              && (known.Error? ==> pc.Stopped?)
              && (known == Ok(None) <==> pc.Deciding? && pc.reason.NotDue?)
              && (pc.Stopped? && known.Ok? ==> !fate(0).Answered? || !fate(1).Answered? || !fate(2).Answered?)
    {
      hide After, Inv, Step, Leads, AfterNext, JobKey;
      ghost var start := state;
      var known := JobKey(sys, state, w);
      GetOutcome(sys, state, w);
      Next(w, if known.Ok? && known.value.Some? then fate(0) else Answered);
      ghost var afterGet := state;
      if Leasing.At(state.w, w).SawAbsent? {
        Next(w, fate(1));
        LeadsOn(sys, start, afterGet, state);
      }
      ghost var afterSet := state;
      if Leasing.At(state.w, w).Beaten? {
        Next(w, fate(2));
        LeadsOn(sys, start, afterSet, state);
      }
    }

    /** `_consume_job` for the job that worker `w` has received, whose GET, SET NX, second GET, completion script
        and XACK meet the fates 0 to 4. A worker that raises stops; one that returns has acknowledged the job.
        `ran` is the state in which the trigger has returned, if the job gets that far. */
    method ConsumeJob(w: nat, fate: nat -> Fate) returns (r: Outcome, ghost ran: Option<State>)
      requires Valid() && Leasing.At(state.w, w).Got?
      modifies this`state
      ensures Valid() && Leads(sys, old(state), state)
      ensures ran.Some? ==> Leads(sys, old(state), ran.value) && Leads(sys, ran.value, state) && Leasing.At(ran.value.w, w).Ran?
      ensures r.Raised? ==> Leasing.At(state.w, w).Stopped?
      ensures r == Raised(Broken) ==> exists k: nat :: k <= 4 && !fate(k).Answered?
      ensures r == Raised(Invalid) <==> JobKey(sys, old(state), w).Error?
      ensures r == Raised(Lost) <==> ran.Some? && fate(3).Answered? && ClaimLost(ran.value, w)
      ensures r.Acknowledged? ==> Leasing.At(state.w, w).Idle?
      ensures r.Acknowledged? ==> HasAck(state.w.acks, Leasing.Ack(Leasing.At(old(state).w, w).job, w, r.reason))
      ensures r.Acknowledged? && r.reason.NotDue? <==> fate(4).Answered? && JobKey(sys, old(state), w) == Ok(None)
      ensures r.Acknowledged? && r.reason.OwnCompletion? <==> ran.Some? && fate(3).Answered? && fate(4).Answered? && !ClaimLost(ran.value, w)
    {
      hide After, Inv, Step, Leads, JobKey, ClaimLost, HasAck;
      ghost var start := state;
      ran := None;
      var job := Leasing.At(state.w, w).job;
      var known := JobKey(sys, state, w);
      ClaimRun(w, fate);
      if Leasing.At(state.w, w).Stopped? {
        return Raised(if known.Error? then Invalid else Broken), ran;
      }
      if Leasing.At(state.w, w).Owner? {
        ghost var claimed := state;
        ghost var before := RunClaimed(w, job, fate(3));
        ran := Some(before);
        LeadsOn(sys, start, claimed, before);
        LeadsOn(sys, start, before, state);
        if Leasing.At(state.w, w).Stopped? {
          return Raised(if fate(3).Answered? then Lost else Broken), ran;
        }
      }
      ghost var decided := state;
      var reason := Acknowledge(w, fate(4));
      LeadsOn(sys, start, decided, state);
      if ran.Some? {
        LeadsOn(sys, ran.value, decided, state);
      }
      return if fate(4).Answered? then Acknowledged(reason) else Raised(Broken), ran;
    }

    /** `ack`, for the reason that the worker has decided on. */
    method Acknowledge(w: nat, fate: Fate) returns (reason: Leasing.Reason)
      requires Valid() && Leasing.At(state.w, w).Deciding?
      modifies this`state
      ensures Valid() && Leads(sys, old(state), state) && reason == Leasing.At(old(state).w, w).reason
      ensures if fate.Answered? then Leasing.At(state.w, w).Idle? else Leasing.At(state.w, w).Stopped?
      ensures fate.Answered? ==> HasAck(state.w.acks, Leasing.Ack(Leasing.At(old(state).w, w).job, w, reason))
    {
      hide After, Inv, Step, Leads, AfterNext;
      reason := Leasing.At(state.w, w).reason;
      AckIsLogged(sys, state, w);
      Next(w, fate);
    }

    /** The claimed part: trigger, with its executor, and completion. */
    method RunClaimed(w: nat, job: nat, fate: Fate) returns (ghost ran: State)
      requires Valid() && Leasing.At(state.w, w).Owner? && Leasing.At(state.w, w).job == job
      modifies this`state
      ensures Valid() && Leads(sys, old(state), ran) && Leads(sys, ran, state) && Leasing.At(ran.w, w).Ran?
      ensures var pc := Leasing.At(state.w, w);
              if fate.Answered? && !ClaimLost(ran, w) then pc.Deciding? && pc.job == job && pc.reason.OwnCompletion? else pc.Stopped?
    {
      hide After, Inv, Step, Leads, AfterNext, ClaimLost;
      ghost var start := state;
      Next(w, Answered);
      ghost var entered := state;
      LeadsNowhere(sys, entered);
      if Leasing.At(state.w, w).Executing? {
        Next(w, Answered);
      }
      ran := state;
      LeadsOn(sys, start, entered, ran);
      CompleteOutcome(sys, state, w);
      Next(w, fate);
    }
  }

  /** What validation and slot computation make of the job that worker `w` has received. */
  function JobKey(sys: System, s: State, w: nat): Result<Option<(string, Instant)>> {
    var pc := Leasing.At(s.w, w);
    if pc.Got? && pc.job < |s.p.stream| then Leasing.KeyOf(sys.workers.definition(w), s.p.stream[pc.job]) else Error
  }

  lemma GetOutcome(sys: System, s: State, w: nat)
    requires Inv(sys, s, false) && Leasing.At(s.w, w).Got?
    ensures var pc := Leasing.At(AfterNext(sys, s, w, Answered).w, w);
            && (pc.Stopped? <==> JobKey(sys, s, w).Error?)
            && (pc.Deciding? && pc.reason.NotDue? <==> JobKey(sys, s, w) == Ok(None))
            && (pc.Deciding? ==> JobKey(sys, s, w).Ok? && !pc.reason.OwnCompletion?)
  {
    hide Inv, Leasing.KeyOf, Leasing.RecordedNow;
    Ready(sys, s, w);
  }

  lemma CompleteOutcome(sys: System, s: State, w: nat)
    requires Inv(sys, s, false) && Leasing.At(s.w, w).Ran?
    ensures var pc := Leasing.At(AfterNext(sys, s, w, Answered).w, w);
            if ClaimLost(s, w) then pc.Stopped? else pc.Deciding? && pc.reason.OwnCompletion?
  {
    hide Inv, Step;
    Ready(sys, s, w);
    CompletionOutcome(sys, s, w);
  }

  lemma LeadsNowhere(sys: System, s: State)
    ensures Leads(sys, s, s)
  {
    assert After(sys, s, [], false) == Some(s);
  }

  predicate HasEntry(before: seq<Payload>, after: seq<Payload>, p: Payload) {
    before <= after && p in after[|before|..]
  }

  lemma AppendsEntry(sys: System, start: State, s: State, a: Marking.Action, done: State)
    requires a.Append? || a.AppendLost?
    requires Marking.At(s.p, a.p).Marked? && Marking.At(s.p, a.p).mark < |s.p.marks| && Enabled(sys, s, Produce(a))
    requires start.p.stream <= s.p.stream && Step(sys, s, Produce(a)).p.stream <= done.p.stream
    ensures HasEntry(start.p.stream, done.p.stream, s.p.marks[Marking.At(s.p, a.p).mark].payload)
  {
    assert Step(sys, s, Produce(a)).p.stream == s.p.stream + [s.p.marks[Marking.At(s.p, a.p).mark].payload];
    assert done.p.stream[|s.p.stream|] in done.p.stream[|start.p.stream|..];
  }

  lemma EntryStays(before: seq<Payload>, after: seq<Payload>, more: seq<Payload>, p: Payload)
    requires after <= more
    ensures HasEntry(before, after, p) ==> HasEntry(before, more, p)
  {
    if HasEntry(before, after, p) {
      var k :| 0 <= k < |after[|before|..]| && after[|before|..][k] == p;
      assert more[|before|..][k] == p;
    }
  }

  /** A poll leaves its producer at rest, or with a marking that holds the payload built for the poll. */
  lemma PollOutcome(sys: System, s: State, p: nat, at: Instant)
    requires Enabled(sys, s, Produce(Marking.Poll(p, at)))
    ensures var t := Step(sys, s, Produce(Marking.Poll(p, at)));
            && t.p.stream == s.p.stream
            && (Marking.At(t.p, p).Resting? || Marking.At(t.p, p).Marked?)
            && (Marking.At(t.p, p).Marked? ==>
                  && Marking.MarkOf(t.p, p) < |t.p.marks|
                  && t.p.marks[Marking.MarkOf(t.p, p)].payload == BuildPayload(sys.producers(p), at))
            && (Marking.At(t.p, p).Marked? <==> Unmarked(sys, s, p, at))
  {
    hide BuildPayload, ProducerKey;
  }

  /** The producer's slot is due at this time, has an admissible key, and no marker stands for it. */
  predicate Unmarked(sys: System, s: State, p: nat, at: Instant) {
    match ProducerKey(sys.producers(p), at)
    case None => false
    case Some(key) => |key| <= Marking.MAX_KEY && !Marking.Live(s.p.markers, key, s.now)
  }

  lemma ProducerMarked(sys: System, s: State, p: nat)
    requires Inv(sys, s, false) && Marking.At(s.p, p).Marked?
    ensures Marking.MarkOf(s.p, p) < |s.p.marks|
    ensures Enabled(sys, s, Produce(Marking.Crash(p))) && Marking.At(Step(sys, s, Produce(Marking.Crash(p))).p, p).Resting?
    ensures Enabled(sys, s, Produce(Marking.Append(p))) && Marking.At(Step(sys, s, Produce(Marking.Append(p))).p, p).Resting?
    ensures Enabled(sys, s, Produce(Marking.AppendFails(p))) && Marking.At(Step(sys, s, Produce(Marking.AppendFails(p))).p, p).Failed?
    ensures Enabled(sys, s, Produce(Marking.AppendLost(p))) && Marking.At(Step(sys, s, Produce(Marking.AppendLost(p))).p, p).Failed?
    ensures Step(sys, s, Produce(Marking.AppendFails(p))).p.stream == s.p.stream
  {
    hide Leasing.Inv;
    assert Marking.ProducerOk(s.p, p, s.p.producers[p]);
  }

  lemma ProducerFailed(sys: System, s: State, p: nat)
    requires Inv(sys, s, false) && Marking.At(s.p, p).Failed?
    ensures Marking.At(Step(sys, s, Produce(Marking.Crash(p))).p, p).Resting?
    ensures Step(sys, s, Produce(Marking.Crash(p))).p.stream == s.p.stream
    ensures Enabled(sys, s, Produce(Marking.Free(p))) && Marking.At(Step(sys, s, Produce(Marking.Free(p))).p, p).Resting?
    ensures Step(sys, s, Produce(Marking.Free(p))).p.stream == s.p.stream
  {
    hide Leasing.Inv;
    assert Marking.ProducerOk(s.p, p, s.p.producers[p]);
  }

  predicate HasAck(acks: seq<Leasing.Ack>, a: Leasing.Ack) {
    a in acks
  }

  /** The command that a worker's position calls for. */
  function NextCommand(pc: Leasing.Worker, w: nat): Leasing.Action {
    match pc
    case Got(_) => Leasing.Get(w)
    case SawAbsent(_, _, _) => Leasing.SetNx(w)
    case Beaten(_, _, _) => Leasing.GetAgain(w)
    case Owner(_, _, _, _) => Leasing.Enter(w)
    case Executing(_, _, _) => Leasing.Leave(w)
    case Ran(_, _, _, _) => Leasing.Complete(w)
    case Deciding(_, _) => Leasing.Acknowledge(w)
    case Stopped => Leasing.Restart(w)
    case Idle => Leasing.Deliver(w)
  }

  predicate Busy(pc: Leasing.Worker) {
    !pc.Idle? && !pc.Stopped?
  }

  /** Where a command takes the worker that issues it. */
  predicate Moves(pc: Leasing.Worker, fate: Fate, next: Leasing.Worker)
    requires Busy(pc)
  {
    if !fate.Answered? then next.Stopped?
    else
      && (Busy(next) ==> next.job == pc.job)
      && match pc
         case Got(_) => next.Stopped? || next.SawAbsent? || (next.Deciding? && !next.reason.OwnCompletion?)
         case SawAbsent(_, _, _) => next.Beaten? || next.Owner?
         case Beaten(_, _, _) => next.Deciding? && !next.reason.NotDue? && !next.reason.OwnCompletion?
         case Owner(_, _, _, _) => next.Executing? || next.Ran?
         case Executing(_, _, _) => next.Ran?
         case Ran(_, _, _, _) => next.Stopped? || (next.Deciding? && next.reason.OwnCompletion?)
         case Deciding(_, _) => next.Idle?
         case _ => false
  }

  lemma Ready(sys: System, s: State, w: nat)
    requires Inv(sys, s, false) && Busy(Leasing.At(s.w, w))
    ensures Enabled(sys, s, Work(NextCommand(Leasing.At(s.w, w), w)))
  {
    hide Marking.Inv, Leasing.KeyOf, Leasing.ClaimsOk, Leasing.Justified;
    assert Leasing.WorkerOk(sys.workers, s.w.claims, s.p.stream, w, s.w.workers[w]);
  }

  /** The state right after a worker's next command, or after the exception it raised. */
  ghost function AfterNext(sys: System, s: State, w: nat, fate: Fate): State
    requires Inv(sys, s, false) && Busy(Leasing.At(s.w, w))
  {
    var b := NextCommand(Leasing.At(s.w, w), w);
    Ready(sys, s, w);
    StopEnabled(sys, s, w);
    StopEnabled(sys, Step(sys, s, Work(b)), w);
    match fate
    case Answered => Step(sys, s, Work(b))
    case Refused => Step(sys, s, Work(Leasing.Stop(w)))
    case ReplyLost => Step(sys, Step(sys, s, Work(b)), Work(Leasing.Stop(w)))
  }

  lemma NextMoves(sys: System, s: State, w: nat, fate: Fate)
    requires Inv(sys, s, false) && Busy(Leasing.At(s.w, w))
    ensures Moves(Leasing.At(s.w, w), fate, Leasing.At(AfterNext(sys, s, w, fate).w, w))
  {
    hide Inv, Leasing.KeyOf, RunKey, Leasing.LeavesEarly;
  }

  lemma AckIsLogged(sys: System, s: State, w: nat)
    requires Inv(sys, s, false) && Leasing.At(s.w, w).Deciding?
    ensures HasAck(AfterNext(sys, s, w, Answered).w.acks, Leasing.Ack(Leasing.At(s.w, w).job, w, Leasing.At(s.w, w).reason))
  {
    hide Inv;
    Ready(sys, s, w);
  }

  lemma StopEnabled(sys: System, s: State, w: nat)
    ensures Enabled(sys, s, Work(Leasing.Stop(w)))
  {}
}
