/** The scheduler object with its retry loop, for executors that do not call back into `trigger`.
    Each method is a run of the machine in module SchedulerMachine, so that every theorem there holds of it. */
module SchedulerFacade {
  import opened IsoTime
  import opened Schedule
  import opened SchedulerMachine

  /** One executor call: the keys cancelled while it runs, and how it ends. */
  datatype Outcome = Returns(message: string) | Raised
  datatype Effect = Effect(cancels: seq<string>, outcome: Outcome)

  /** What the n-th executor call of a trigger does, and how the notification sink behaves. */
  datatype Environment = Environment(call: nat -> Effect, sink: Sink)

  function Marked(cancelled: set<string>, keys: seq<string>): set<string>
    decreases |keys|
  {
    if keys == [] then cancelled
    else Marked(if keys[0] == "" || |keys[0]| > 256 then cancelled else cancelled + {keys[0]}, keys[1..])
  }

  function Signals(keys: seq<string>): seq<Event> {
    if keys == [] then []
    else (if keys[0] == "" || |keys[0]| > 256 then [] else [CancelSignal(keys[0])]) + Signals(keys[1..])
  }

  /** All these keys are cancelled, one call after the other. */
  function Signalled(s: State, keys: seq<string>): State {
    s.(cancelled := Marked(s.cancelled, keys), log := s.log + Signals(keys))
  }

  predicate OneOpen(s: State) {
    && |s.frames| == 1 && !Top(s).calling && Top(s).attempts <= Top(s).def.retryLimit
  }

  /** The machine's state while the executor that `s` calls next is running. */
  function Calling(s: State): State
    requires OneOpen(s)
  {
    s.(frames := [Top(s).(attempts := Top(s).attempts + 1, calling := true)],
       log := s.log + [Called(Top(s).serial, Top(s).key, Top(s).def.retryLimit)])
  }

  /** The state when that executor ends, and, if it raised, at the next turn of the loop. */
  function During(s: State, env: Environment): State
    requires OneOpen(s)
  {
    Signalled(Calling(s), env.call(Top(s).attempts).cancels)
  }

  function NextTurn(s: State, env: Environment): State
    requires OneOpen(s)
  {
    During(s, env).(frames := [Top(s).(attempts := Top(s).attempts + 1, calling := false)])
  }

  /** Run the only open frame to its end, turn by turn. */
  function Finished(s: State, env: Environment): (t: State)
    requires OneOpen(s)
    decreases Top(s).def.retryLimit + 1 - Top(s).attempts
  {
    var f := Top(s);
    if f.key in s.cancelled then Closed(s, Cancelled, "schedule was cancelled", false, NoSink)
    else
      var d := During(s, env);
      match env.call(f.attempts).outcome
      case Returns(message) =>
        Closed(d, Succeeded, message, f.finding, env.sink).(log := d.log + [Returned(f.serial, f.key)])
      case Raised =>
        if f.attempts + 1 > f.def.retryLimit then
          Closed(d, Failed, "scheduled execution failed after retry limit", false, env.sink)
        else Finished(NextTurn(s, env), env)
  }

  /** A whole `trigger` call. */
  function Triggered(s: State, id: string, now: Instant, approved: bool, finding: bool, env: Environment): State
    requires s.frames == [] && Inv(s, Flat)
  {
    var t := Started(s, id, now, approved, finding);
    StartedShape(s, id, now, approved, finding, Flat);
    if t.frames == [] then t else Finished(t, env)
  }

  lemma {:induction false} SignalledReachable(s: State, keys: seq<string>)
    requires Reachable(s, Flat)
    ensures Reachable(Signalled(s, keys), Flat)
    decreases |keys|
  {
    hide Reachable, Step;
    if keys == [] {
      assert Signalled(s, keys) == s;
    } else {
      ReachMore(s, Cancel(keys[0]), Flat);
      SignalledReachable(Step(s, Cancel(keys[0])), keys[1..]);
      SignalledFirst(s, keys);
    }
  }

  lemma SignalledFirst(s: State, keys: seq<string>)
    requires keys != []
    ensures Signalled(Step(s, Cancel(keys[0])), keys[1..]) == Signalled(s, keys)
  {
    var first := if keys[0] == "" || |keys[0]| > 256 then [] else [CancelSignal(keys[0])];
    var t := Step(s, Cancel(keys[0]));
    assert t == s.(log := s.log + first, cancelled := t.cancelled);
    assert Signals(keys) == first + Signals(keys[1..]);
    assert (s.log + first) + Signals(keys[1..]) == s.log + (first + Signals(keys[1..]));
  }

  /** The machine's steps of one turn. */
  lemma TurnSteps(s: State)
    requires OneOpen(s)
    ensures Top(s).key in s.cancelled ==> Step(s, Attempt) == Closed(s, Cancelled, "schedule was cancelled", false, NoSink)
    ensures Top(s).key !in s.cancelled ==> Step(s, Attempt) == Calling(s)
  {
    hide Closed;
    assert Rest(s) == [];
  }

  lemma RaiseSteps(d: State, sink: Sink)
    requires |d.frames| == 1 && Top(d).calling
    ensures Top(d).attempts > Top(d).def.retryLimit ==>
              Step(d, Raise(sink)) == Closed(d, Failed, "scheduled execution failed after retry limit", false, sink)
    ensures Top(d).attempts <= Top(d).def.retryLimit ==>
              Step(d, Raise(sink)) == d.(frames := [Top(d).(calling := false)])
  {
    hide Closed;
    assert Rest(d) == [];
  }

  lemma ReturnSteps(d: State, message: string, sink: Sink)
    requires |d.frames| == 1 && Top(d).calling
    ensures Step(d, Return(message, sink)) ==
            Closed(d, Succeeded, message, Top(d).finding, sink).(log := d.log + [Returned(Top(d).serial, Top(d).key)])
  {
    hide Recorded, Notified, Released;
  }

  lemma {:induction false} FinishedReachable(s: State, env: Environment)
    requires OneOpen(s) && Reachable(s, Flat)
    ensures Reachable(Finished(s, env), Flat) && Finished(s, env).frames == []
    decreases Top(s).def.retryLimit + 1 - Top(s).attempts
  {
    hide Reachable, Step, Recorded, Notified, Released, Marked, Signals;
    TurnSteps(s);
    ReachMore(s, Attempt, Flat);
    if Top(s).key !in s.cancelled {
      var d := During(s, env);
      SignalledReachable(Calling(s), env.call(Top(s).attempts).cancels);
      match env.call(Top(s).attempts).outcome
      case Returns(message) =>
        ReturnSteps(d, message, env.sink);
        ReachMore(d, Return(message, env.sink), Flat);
      case Raised =>
        RaiseSteps(d, env.sink);
        ReachMore(d, Raise(env.sink), Flat);
        if Top(d).attempts <= Top(d).def.retryLimit { FinishedReachable(NextTurn(s, env), env); }
    }
  }

  lemma InvDefinitions(s: State)
    requires Inv(s, Flat)
    ensures forall id <- s.defs :: s.defs[id].id == id && s.defs[id].retryLimit >= 0
  {}

  /** What a trigger returns: the record of the key it decided on, or nothing when it raises. */
  ghost function Answer(before: State, after: State, id: string, now: Instant, approved: bool): Option<Run> {
    if id !in before.defs then None
    else
      var d := before.defs[id];
      var early := EarlyExit(before, id, d, now, approved).Some?;
      if !early && !Due(d, now) then None
      else
        var key := RunKey(id, if early then now else Slot(d, now));
        if key in after.history then Some(after.history[key]) else None
  }

  /** A trigger of the object is a run of the machine, from quiescence to quiescence. */
  lemma TriggeredReachable(s: State, id: string, now: Instant, approved: bool, finding: bool, env: Environment)
    requires s.frames == [] && Reachable(s, Flat) && Inv(s, Flat)
    ensures var t := Triggered(s, id, now, approved, finding, env);
            Reachable(t, Flat) && t.frames == [] && Inv(t, Flat)
  {
    hide Reachable, Started, Finished, Inv;
    ReachMore(s, Trigger(id, now, approved, finding), Flat);
    var t := Started(s, id, now, approved, finding);
    StartedShapeAt(s, id, now, approved, finding);
    if t.frames != [] { FinishedReachable(t, env); }
    ReachableInv(Triggered(s, id, now, approved, finding, env), Flat);
  }

  lemma StartedShapeAt(s: State, id: string, now: Instant, approved: bool, finding: bool)
    requires s.frames == [] && Inv(s, Flat)
    ensures var t := Started(s, id, now, approved, finding); t.frames == [] || OneOpen(t)
  {
    hide Started, CallsOk, Balanced, CancelsOk;
    StartedShape(s, id, now, approved, finding, Flat);
  }

  class Scheduler {
    var definitions: map<string, Definition>
    var history: map<string, Run>
    var paused: set<string>
    var active: map<string, int>
    var cancelled: set<string>
    ghost var serial: nat
    ghost var log: seq<Event>

    /** The object's state between two public calls, as a state of the machine. */
    ghost function View(): State
      reads this
    {
      State(definitions, history, paused, active, cancelled, [], serial, log)
    }

    ghost predicate Valid()
      reads this
    {
      Reachable(View(), Flat) && Inv(View(), Flat)
    }

    constructor ()
      ensures Valid() && View() == Empty
    {
      definitions, history, paused, active, cancelled := map[], map[], {}, map[], {};
      serial, log := 0, [];
      new;
      EmptyReachable(Flat);
      EmptyInv(Flat);
    }

    /** False stands for the exceptions of a refused definition. */
    method Register(d: Definition) returns (ok: bool)
      requires Valid()
      modifies this
      ensures Valid() && View() == Step(old(View()), Action.Register(d))
      ensures ok <==> d.id in definitions && definitions[d.id] == d && ValidDefinition(d)
    {
      ghost var before := View();
      if d.id in definitions && definitions[d.id].version != d.version {
        ok := false;
      } else if !ValidDefinition(d) {
        ok := false;
      } else {
        definitions := definitions[d.id := d];
        ok := true;
      }
      ReachMore(before, Action.Register(d), Flat);
      ReachableInv(View(), Flat);
    }

    method Pause(id: string)
      requires Valid()
      modifies this
      ensures Valid() && View() == Step(old(View()), Action.Pause(id))
    {
      ghost var before := View();
      if id in definitions { paused := paused + {id}; }
      ReachMore(before, Action.Pause(id), Flat);
      ReachableInv(View(), Flat);
    }

    method Resume(id: string)
      requires Valid()
      modifies this
      ensures Valid() && View() == Step(old(View()), Action.Resume(id))
    {
      ghost var before := View();
      if id in definitions { paused := paused - {id}; }
      ReachMore(before, Action.Resume(id), Flat);
      ReachableInv(View(), Flat);
    }

    method Cancel(key: string)
      requires Valid()
      modifies this
      ensures Valid() && View() == Step(old(View()), Action.Cancel(key))
    {
      ghost var before := View();
      if key != "" && |key| <= 256 {
        cancelled := cancelled + {key};
        log := log + [CancelSignal(key)];
      }
      ReachMore(before, Action.Cancel(key), Flat);
      ReachableInv(View(), Flat);
    }

    /** `_record`. */
    method Record(id: string, status: Status, attempts: nat, message: string, at: Instant) returns (run: Run)
      modifies this`history
      ensures history == Recorded(old(history), id, status, attempts, message, at)
      ensures run == history[RunKey(id, at)]
    {
      run := Run(id, RunKey(id, at), Iso(at), status, attempts, message, false, None);
      history := history[run.key := run];
    }

    /** `_notify`, on the record just made. */
    method Notify(d: Definition, run: Run, finding: bool, sink: Sink) returns (r: Run)
      requires run.key in history && history[run.key] == run
      modifies this`history
      ensures r == Notified(d, run, finding, sink)
      ensures history == old(history)[run.key := r]
    {
      r := run;
      if sink.NoSink? || d.notifyChannel.None? || !ShouldNotify(d, run.status, finding) {
        return;
      }
      if sink.Raises? {
        r := run.(notifyError := Some(sink.error));
      } else {
        r := run.(sent := true);
      }
      history := history[run.key := r];
    }

    /** The cancellations made while an executor runs. */
    method SignalAll(keys: seq<string>)
      modifies this`cancelled, this`log
      ensures cancelled == Marked(old(cancelled), keys) && log == old(log) + Signals(keys)
    {
      var i := 0;
      while i < |keys|
        invariant 0 <= i <= |keys|
        invariant Marked(cancelled, keys[i..]) == Marked(old(cancelled), keys)
        invariant log + Signals(keys[i..]) == old(log) + Signals(keys)
      {
        assert keys[i..][1..] == keys[i + 1..];
        if keys[i] != "" && |keys[i]| <= 256 {
          cancelled := cancelled + {keys[i]};
          log := log + [CancelSignal(keys[i])];
        }
        i := i + 1;
      }
    }

    /** The `finally` clause of `trigger`. */
    method Release(id: string)
      modifies this`active
      ensures active == Released(old(active), id)
    {
      var n := ActiveOf(active, id) - 1;
      if n == 0 {
        active := active - {id};
      } else {
        active := active[id := n];
      }
    }

    /** Leave the retry loop with this record. */
    method Close(ghost m: State, d: Definition, attempts: nat, at: Instant, status: Status, message: string, finding: bool, sink: Sink)
      returns (run: Run)
      requires |m.frames| == 1 && m == View().(frames := m.frames)
      requires Top(m).def == d && Top(m).at == at && Top(m).attempts == attempts && Top(m).key == RunKey(d.id, at)
      modifies this`history, this`active
      ensures View() == Closed(m, status, message, finding, sink)
      ensures RunKey(d.id, at) in history && history[RunKey(d.id, at)] == run
      ensures run.attempts == attempts && run.status == status
    {
      hide RunKey, Iso, Reachable, Inv;
      run := Record(d.id, status, attempts, message, at);
      run := Notify(d, run, finding, sink);
      Release(d.id);
      assert Rest(m) == [];
    }

    /** The rest of a turn of the retry loop, from the executor call on, whose effect this is; a run is
        returned when the loop is left. `m` is the machine's state at the top of the loop. */
    method Settle(ghost m: State, ghost env: Environment, d: Definition, at: Instant, attempts: nat, finding: bool, effect: Effect, sink: Sink)
      returns (run: Option<Run>)
      requires OneOpen(m) && m == View().(frames := m.frames) && env.call(attempts) == effect && env.sink == sink
      requires Top(m) == Frame(Top(m).serial, d, at, RunKey(d.id, at), attempts, finding, false) && RunKey(d.id, at) !in cancelled
      modifies this`history, this`active, this`cancelled, this`log
      ensures run.Some? ==> View() == Finished(m, env) && RunKey(d.id, at) in history && history[RunKey(d.id, at)] == run.value
      ensures run.Some? ==> run.value.attempts == attempts + 1
      ensures run.None? ==> OneOpen(NextTurn(m, env)) && NextTurn(m, env) == View().(frames := NextTurn(m, env).frames)
      ensures run.None? ==> Finished(m, env) == Finished(NextTurn(m, env), env)
    {
      hide RunKey, Iso, Reachable, Inv, Closed, Step, Marked, Signals;
      ghost var during := During(m, env);
      log := log + [Called(Top(m).serial, RunKey(d.id, at), d.retryLimit)];
      SignalAll(effect.cancels);
      match effect.outcome
      case Returns(message) =>
        var r := Close(during, d, attempts + 1, at, Succeeded, message, finding, sink);
        log := log + [Returned(Top(during).serial, RunKey(d.id, at))];
        return Some(r);
      case Raised =>
        if attempts + 1 > d.retryLimit {
          var r := Close(during, d, attempts + 1, at, Failed, "scheduled execution failed after retry limit", false, sink);
          return Some(r);
        }
        return None;
    }

    /** The retry loop of `trigger`; `start` is the machine's state on entry. */
    method RetryLoop(ghost start: State, d: Definition, at: Instant, finding: bool, env: Environment) returns (run: Run)
      requires OneOpen(start) && start == View().(frames := start.frames)
      requires Top(start) == Frame(Top(start).serial, d, at, RunKey(d.id, at), 0, finding, false)
      modifies this`history, this`active, this`cancelled, this`log
      ensures View() == Finished(start, env)
      ensures RunKey(d.id, at) in history && history[RunKey(d.id, at)] == run
    {
      hide RunKey, Iso, Reachable, Inv, Closed, Step, Marked, Signals, During;
      ghost var m := start;
      var attempts := 0;
      while attempts <= d.retryLimit
        invariant OneOpen(m) && m == View().(frames := m.frames)
        invariant Top(m) == Frame(Top(start).serial, d, at, RunKey(d.id, at), attempts, finding, false)
        invariant Finished(start, env) == Finished(m, env)
      {
        if RunKey(d.id, at) in cancelled {
          run := Close(m, d, attempts, at, Cancelled, "schedule was cancelled", false, NoSink);
          return;
        }
        var left := Settle(m, env, d, at, attempts, finding, env.call(attempts), env.sink);
        if left.Some? {
          return left.value;
        }
        m := NextTurn(m, env);
        attempts := attempts + 1;
      }
      assert false;
    }

    /** `trigger` up to its retry loop. It opens a frame of the machine, or answers by itself. */
    method Enter(id: string, now: Instant, approved: bool, finding: bool) returns (entered: bool, run: Option<Run>)
      requires Valid()
      modifies this
      ensures var started := Started(old(View()), id, now, approved, finding); started == View().(frames := started.frames)
      ensures entered <==> Started(old(View()), id, now, approved, finding).frames != []
      ensures definitions == old(definitions)
      ensures entered ==> id in old(definitions) && Due(old(definitions)[id], now) && old(definitions)[id].id == id
      ensures entered ==> Started(old(View()), id, now, approved, finding).frames == [NewFrame(old(View()), id, now, finding)]
      ensures !entered ==> run == Answer(old(View()), View(), id, now, approved)
    {
      hide Reachable, RunKey, Iso, Inv, Finished, IntervalSlot, CronSlot;
      ghost var before := View();
      InvDefinitions(before);
      if id !in definitions {
        return false, None;
      }
      var d := definitions[id];
      if id in paused {
        var r := Record(id, Paused, 0, "schedule is paused", now);
        return false, Some(r);
      }
      if d.permissionsMode != "read_only" && !approved {
        var r := Record(id, Blocked, 0, "scheduled write requires explicit approval", now);
        return false, Some(r);
      }
      if d.expiresAt.Some? && now >= d.expiresAt.value {
        var r := Record(id, Expired, 0, "schedule has expired", now);
        return false, Some(r);
      }
      var scheduled := ScheduledFor(d, now);
      if scheduled.Error? {
        return false, None;
      }
      if scheduled.value.None? {
        var r := Record(id, Skipped, 0, "not due", now);
        return false, Some(r);
      }
      var at := scheduled.value.value;
      var key := RunKey(id, at);
      if key in history {
        return false, Some(history[key]);
      }
      if key in cancelled {
        var r := Record(id, Cancelled, 0, "schedule was cancelled", at);
        return false, Some(r);
      }
      if ActiveOf(active, id) >= d.maxConcurrency {
        var r := Record(id, Skipped, 0, "concurrency limit reached", at);
        return false, Some(r);
      }
      active := active[id := ActiveOf(active, id) + 1];
      serial := serial + 1;
      return true, None;
    }

    /** `trigger`; `None` stands for an unknown schedule or an exception of the slot computation. */
    method Trigger(id: string, now: Instant, approved: bool, finding: bool, env: Environment) returns (run: Option<Run>)
      requires Valid()
      modifies this
      ensures Valid()
      ensures View() == Triggered(old(View()), id, now, approved, finding, env)
      ensures run == Answer(old(View()), View(), id, now, approved)
      ensures log != old(log) ==> Permitted(old(View()), id, now, approved)
      ensures !Permitted(old(View()), id, now, approved) ==> cancelled == old(cancelled) && active == old(active) && (run.Some? ==> run.value.attempts == 0)
    {
      hide Reachable, RunKey, Iso, Inv, Finished, Started, Answer, Permitted;
      ghost var before := View();
      if !Permitted(before, id, now, approved) { RefusedTrigger(before, id, now, approved, finding, env); }
      TriggeredReachable(before, id, now, approved, finding, env);
      StartedShapeAt(before, id, now, approved, finding);
      ghost var start := Started(before, id, now, approved, finding);
      var entered;
      entered, run := Enter(id, now, approved, finding);
      if entered {
        var d := definitions[id];
        var r := RetryLoop(start, d, Slot(d, now), finding, env);
        AnswerOfLoop(before, View(), id, now, approved, finding);
        run := Some(r);
      }
    }
  }

  /** A trigger that is not permitted calls no executor and answers with a record without attempts, if any. */
  lemma RefusedTrigger(s: State, id: string, now: Instant, approved: bool, finding: bool, env: Environment)
    requires s.frames == [] && Reachable(s, Flat) && Inv(s, Flat) && !Permitted(s, id, now, approved)
    ensures var t := Triggered(s, id, now, approved, finding, env);
            && t.log == s.log && t.cancelled == s.cancelled && t.active == s.active
            && (Answer(s, t, id, now, approved).Some? ==> Answer(s, t, id, now, approved).value.attempts == 0)
  {
    hide Reachable, RunKey, Iso, Inv, Finished, ScheduledFor;
    if id in s.defs {
      RefusalIsRecorded(s, id, now, approved, finding);
      NotDueIff(s.defs[id], now);
      hide Started;
    }
  }

  /** The frame that a trigger opens. */
  ghost function NewFrame(s: State, id: string, now: Instant, finding: bool): Frame
    requires id in s.defs && Due(s.defs[id], now)
  {
    var at := Slot(s.defs[id], now);
    Frame(s.serial, s.defs[id], at, RunKey(s.defs[id].id, at), 0, finding, false)
  }

  /** A trigger that reached its loop answers with the record of its slot. */
  lemma AnswerOfLoop(before: State, after: State, id: string, now: Instant, approved: bool, finding: bool)
    requires before.frames == [] && Started(before, id, now, approved, finding).frames != []
    requires Inv(before, Flat)
    ensures id in before.defs && Due(before.defs[id], now)
    ensures var key := RunKey(id, Slot(before.defs[id], now)); key in after.history ==> Answer(before, after, id, now, approved) == Some(after.history[key])
  {
    hide RunKey, Iso, IntervalSlot, CronSlot, Inv;
  }
}
