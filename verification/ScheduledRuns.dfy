/** The executor through which the scheduler runs the agent, and the traces that a scheduled run leaves
    over all of its attempts. */
module ScheduledRuns {
  import opened IsoTime
  import opened Models
  import opened Text
  import opened Policy
  import opened RunTrace
  import opened Schedule
  import opened AgentRuntime
  import Facade = SchedulerFacade
  import Machine = SchedulerMachine

  /** `validate_agent_schedule`. */
  predicate Ready(d: Definition) {
    d.agent == "customer-service-agent" && Given(d.query) && Given(d.orderId)
  }

  /** What the executor asks the runtime for: the schedule's own inputs, in the worker's identity. */
  function RequestOf(d: Definition, i: Identity): Request {
    Request(if d.query.Some? then d.query else Some(""), i, d.orderId, d.allowExternal)
  }

  /** An attempt succeeds iff its run ends in full success. */
  predicate Succeeds(rt: Runtime, i: Identity, d: Definition, w: World) {
    Ready(d) && StatusOf(rt, RequestOf(d, i), w) == Some(Succeeded)
  }

  /** The trace an attempt leaves; none when the schedule itself is refused. */
  function AttemptTrace(rt: Runtime, i: Identity, d: Definition, w: World): seq<Event> {
    if Ready(d) then Events(rt, RequestOf(d, i), w) else []
  }

  /** How the executor ends: with the run's message, or by raising. */
  function OutcomeOf(rt: Runtime, i: Identity, d: Definition, w: World): Facade.Outcome {
    if Succeeds(rt, i, d, w) then
      SuccessHasResult(rt, i, d, w);
      Facade.Returns(VerifiedMessage(Strip(d.orderId.value), w.gateway.result) + Explanation(rt.hasModel, d.allowExternal, w.model))
    else Facade.Raised
  }

  lemma SuccessHasResult(rt: Runtime, i: Identity, d: Definition, w: World)
    requires Succeeds(rt, i, d, w)
    ensures Given(d.orderId) && w.gateway.Replies?
  {}

  /** An attempt calls the tool exactly when its schedule is complete and meant for this agent and the worker's
      identity is entitled, and then for the schedule's own order; it asks a model only with the schedule's
      consent, and succeeds only on a proven reply. */
  lemma AttemptIsReviewed(rt: Runtime, i: Identity, d: Definition, w: World, order: string)
    ensures ToolCall(order) in AttemptTrace(rt, i, d, w) <==>
            && d.agent == "customer-service-agent" && d.query.Some? && !Blank(d.query.value) && d.orderId.Some? && !Blank(d.orderId.value)
            && Entitled(rt.policy, i) && order == Strip(d.orderId.value)
    ensures ModelCall in AttemptTrace(rt, i, d, w) ==> rt.hasModel && d.allowExternal
    ensures Succeeds(rt, i, d, w) ==> Proven(RequestOf(d, i), w) && ToolCall(Strip(d.orderId.value)) in AttemptTrace(rt, i, d, w)
  {
    hide Strip, Blank, Events, StatusOf, Entitled, Proven;
    CalledIff(rt, RequestOf(d, i), w, order);
    SuccessIff(rt, RequestOf(d, i), w);
    if ModelCall in AttemptTrace(rt, i, d, w) { EventsTell(rt, RequestOf(d, i), w, ModelCall); }
  }

  class AgentScheduleExecutor {
    const agent: Agent
    const identity: Identity

    constructor (agent: Agent, identity: Identity)
      ensures this.agent == agent && this.identity == identity
    {
      this.agent, this.identity := agent, identity;
    }

    /** `execute`: anything but full success raises. */
    method Execute(d: Definition, key: string, w: World) returns (r: Facade.Outcome)
      modifies agent, agent.audit
      ensures r == OutcomeOf(agent.runtime, identity, d, w)
      ensures agent.audit.events == old(agent.audit.events)
              + Audited("schedule-trace-" + key, old(agent.runs), identity.workspaceId, AttemptTrace(agent.runtime, identity, d, w))
      ensures agent.runs == old(agent.runs) + if Ready(d) then 1 else 0
    {
      hide StatusOf, Events;
      if !Ready(d) {
        return Facade.Raised;
      }
      var result := agent.Run(RequestOf(d, identity), "schedule-trace-" + key, w);
      if result.None? || result.value.status != Succeeded {
        return Facade.Raised;
      }
      return Facade.Returns(result.value.message);
    }
  }

  /** The environment that this executor is for the scheduler: the n-th attempt runs in the n-th world, and
      these keys are cancelled meanwhile. */
  function EnvironmentOf(rt: Runtime, i: Identity, d: Definition, worlds: nat -> World, cancels: nat -> seq<string>, sink: Machine.Sink)
    : Facade.Environment
  {
    Facade.Environment((n: nat) => Facade.Effect(cancels(n), OutcomeOf(rt, i, d, worlds(n))), sink)
  }

  /** The scheduler's executor calls are the attempts of this agent, the n-th one in the n-th world. */
  ghost predicate Drives(rt: Runtime, i: Identity, d: Definition, worlds: nat -> World, env: Facade.Environment) {
    forall n: nat :: env.call(n).outcome.Returns? <==> Succeeds(rt, i, d, worlds(n))
  }

  /** The audit entries of the first attempts of a scheduled run, each under a run id of its own. */
  function AttemptLog(rt: Runtime, i: Identity, d: Definition, key: string, run: nat, worlds: nat -> World, attempts: nat): seq<Entry> {
    if attempts == 0 then []
    else
      AttemptLog(rt, i, d, key, run, worlds, attempts - 1)
      + Audited("schedule-trace-" + key, run + (attempts - 1), i.workspaceId, AttemptTrace(rt, i, d, worlds(attempts - 1)))
  }

  /** What the audit log says about one run. */
  function OfRun(log: seq<Entry>, run: nat): seq<Entry> {
    if log == [] then []
    else
      var last := log[|log| - 1];
      OfRun(log[..|log| - 1], run) + if last.run == run then [last] else []
  }

  lemma {:induction false} OfRunConcat(a: seq<Entry>, b: seq<Entry>, run: nat)
    ensures OfRun(a + b, run) == OfRun(a, run) + OfRun(b, run)
    decreases |b|
  {
    if b == [] {
      assert a + b == a;
    } else {
      OfRunConcat(a, b[..|b| - 1], run);
      assert (a + b)[..|a + b| - 1] == a + b[..|b| - 1];
    }
  }

  lemma {:induction false} OfRunAudited(traceId: string, r: nat, workspaceId: string, word: seq<Event>, run: nat)
    ensures OfRun(Audited(traceId, r, workspaceId, word), run) == if r == run then Audited(traceId, r, workspaceId, word) else []
  {
    if word != [] {
      var front, last := word[..|word| - 1], word[|word| - 1];
      OfRunAudited(traceId, r, workspaceId, front, run);
      var before := Audited(traceId, r, workspaceId, front);
      var entry := Entry(traceId, r, workspaceId, last);
      assert (before + [entry])[..|before|] == before;
      assert before + [] == before;
      if !last.ToolCall? && !last.ModelCall? {
        assert OfRun(before + [entry], run) == OfRun(before, run) + if r == run then [entry] else [];
      }
    }
  }

  /** A reader of the log finds the n-th attempt's trace, and nothing else, under the n-th run id. */
  lemma {:induction false} AttemptsApart(rt: Runtime, i: Identity, d: Definition, key: string, first: nat,
                                          worlds: nat -> World, attempts: nat, run: nat)
    ensures OfRun(AttemptLog(rt, i, d, key, first, worlds, attempts), run) ==
            if first <= run < first + attempts
            then Audited("schedule-trace-" + key, run, i.workspaceId, AttemptTrace(rt, i, d, worlds(run - first)))
            else []
  {
    hide AttemptTrace, Audited, OfRun;
    if attempts > 0 {
      var n := attempts - 1;
      var last := Audited("schedule-trace-" + key, first + n, i.workspaceId, AttemptTrace(rt, i, d, worlds(n)));
      AttemptsApart(rt, i, d, key, first, worlds, n, run);
      OfRunConcat(AttemptLog(rt, i, d, key, first, worlds, n), last, run);
      OfRunAudited("schedule-trace-" + key, first + n, i.workspaceId, AttemptTrace(rt, i, d, worlds(n)), run);
    } else {
      OfRunNothing(run);
    }
  }

  lemma OfRunNothing(run: nat)
    ensures OfRun([], run) == []
  {}

  /** The record tells how the attempts from `first` on went: all but the last failed, the last one too
      unless the run succeeded, and a failed run has used them all. */
  ghost predicate Tells(run: Machine.Run, first: nat, rt: Runtime, i: Identity, d: Definition, worlds: nat -> World) {
    && first <= run.attempts <= d.retryLimit + 1
    && (forall n: nat :: first <= n < run.attempts - 1 ==> !Succeeds(rt, i, d, worlds(n)))
    && (run.status == Machine.Succeeded ==> first < run.attempts && Succeeds(rt, i, d, worlds(run.attempts - 1)))
    && (run.status != Machine.Succeeded && first < run.attempts ==> !Succeeds(rt, i, d, worlds(run.attempts - 1)))
    && (run.status == Machine.Failed ==> run.attempts == d.retryLimit + 1)
  }

  lemma ClosedRecord(s: Machine.State, status: Machine.Status, message: string, finding: bool, sink: Machine.Sink)
    requires s.frames != [] && Machine.Top(s).key == RunKey(Machine.Top(s).def.id, Machine.Top(s).at)
    ensures var f := Machine.Top(s); var h := Machine.Closed(s, status, message, finding, sink).history;
            f.key in h && h[f.key].status == status && h[f.key].attempts == f.attempts
  {
    hide RunKey, Machine.Released;
  }

  lemma DuringFrame(s: Machine.State, env: Facade.Environment)
    requires Facade.OneOpen(s)
    ensures Facade.During(s, env).frames == [Machine.Top(s).(attempts := Machine.Top(s).attempts + 1, calling := true)]
  {
    hide Facade.Marked, Facade.Signals;
  }

  /** The record of a trigger that reaches its retry loop tells how the attempts went. */
  lemma {:induction false} RecordTellsAttempts(s: Machine.State, rt: Runtime, i: Identity, worlds: nat -> World, env: Facade.Environment)
    requires Facade.OneOpen(s) && Machine.Top(s).key == RunKey(Machine.Top(s).def.id, Machine.Top(s).at)
    requires Drives(rt, i, Machine.Top(s).def, worlds, env)
    ensures var f := Machine.Top(s); var h := Facade.Finished(s, env).history;
            f.key in h && Tells(h[f.key], f.attempts, rt, i, f.def, worlds)
    decreases Machine.Top(s).def.retryLimit + 1 - Machine.Top(s).attempts
  {
    hide RunKey, Succeeds, Machine.Closed, Facade.During;
    var f := Machine.Top(s);
    var during := Facade.During(s, env);
    DuringFrame(s, env);
    if f.key in s.cancelled {
      ClosedRecord(s, Machine.Cancelled, "schedule was cancelled", false, Machine.NoSink);
    } else {
      match env.call(f.attempts).outcome {
        case Returns(message) =>
          ClosedRecord(during, Machine.Succeeded, message, f.finding, env.sink);
        case Raised =>
          if f.attempts + 1 > f.def.retryLimit {
            ClosedRecord(during, Machine.Failed, "scheduled execution failed after retry limit", false, env.sink);
          } else {
            RecordTellsAttempts(Facade.NextTurn(s, env), rt, i, worlds, env);
          }
      }
    }
  }

  /** Exactly `attempts` traces. Each of them follows the grammar, or breaks off in a foreign call; only the
      last ends in success. */
  ghost predicate TracesOf(rt: Runtime, i: Identity, d: Definition, worlds: nat -> World, attempts: nat) {
    && attempts > 0
    && (forall n: nat :: n < attempts ==> AttemptTrace(rt, i, d, worlds(n)) != [])
    && (forall n: nat :: n < attempts ==> (Ended(Succeeded) in AttemptTrace(rt, i, d, worlds(n)) <==> n == attempts - 1))
    && (forall n: nat :: n < attempts - 1 ==> Unsuccessful(Reach(Start, AttemptTrace(rt, i, d, worlds(n)))))
    && Reach(Start, AttemptTrace(rt, i, d, worlds(attempts - 1))) == Done(Succeeded)
  }

  lemma AttemptTraces(rt: Runtime, i: Identity, d: Definition, worlds: nat -> World, attempts: nat)
    requires attempts > 0 && Succeeds(rt, i, d, worlds(attempts - 1))
    requires forall n: nat :: n < attempts - 1 ==> !Succeeds(rt, i, d, worlds(n))
    ensures TracesOf(rt, i, d, worlds, attempts)
  {
    hide Events, StatusOf, Reach;
    forall n: nat | n < attempts
      ensures var p := Reach(Start, AttemptTrace(rt, i, d, worlds(n)));
              && (if n == attempts - 1 then p == Done(Succeeded) else Unsuccessful(p))
              && AttemptTrace(rt, i, d, worlds(n)) != []
              && (Ended(Succeeded) in AttemptTrace(rt, i, d, worlds(n)) <==> p == Done(Succeeded))
    {
      TraceAccepted(rt, RequestOf(d, i), worlds(n));
      AcceptedEnd(AttemptTrace(rt, i, d, worlds(n)));
    }
  }

  /** A scheduled run that is recorded as succeeded leaves as many traces as the record says attempts. */
  lemma SucceededRunTraces(s: Machine.State, rt: Runtime, i: Identity, worlds: nat -> World, env: Facade.Environment)
    requires Facade.OneOpen(s) && Machine.Top(s).key == RunKey(Machine.Top(s).def.id, Machine.Top(s).at) && Machine.Top(s).attempts == 0
    requires Drives(rt, i, Machine.Top(s).def, worlds, env)
    ensures var f := Machine.Top(s); var h := Facade.Finished(s, env).history;
            f.key in h && (h[f.key].status == Machine.Succeeded ==> TracesOf(rt, i, f.def, worlds, h[f.key].attempts))
  {
    hide TracesOf, Succeeds, Facade.Finished, RunKey;
    RecordTellsAttempts(s, rt, i, worlds, env);
    var f := Machine.Top(s);
    var run := Facade.Finished(s, env).history[f.key];
    if run.status == Machine.Succeeded {
      AttemptTraces(rt, i, f.def, worlds, run.attempts);
    }
  }

  /** A phase in which an attempt that failed may leave its trace. */
  predicate Unsuccessful(p: Phase) {
    p in {Calling, Asking} || (p.Done? && p.status != Succeeded)
  }

  lemma AcceptedEnd(word: seq<Event>)
    requires Reach(Start, word) in {Calling, Asking} || Reach(Start, word).Done?
    ensures word != [] && (Ended(Succeeded) in word <==> Reach(Start, word) == Done(Succeeded))
  {
    if Reach(Start, word).Done? {
      EndsOnce(Start, word, Reach(Start, word).status);
    } else {
      forall k: nat | k < |word| ensures !word[k].Ended? { NotEnded(Start, word, k); }
    }
  }

  /** A scheduler whose executor is the agent: `trigger` as the worker composes it. */
  class ScheduledAgent {
    const scheduler: Facade.Scheduler
    const executor: AgentScheduleExecutor

    constructor (scheduler: Facade.Scheduler, executor: AgentScheduleExecutor)
      ensures this.scheduler == scheduler && this.executor == executor
    {
      this.scheduler, this.executor := scheduler, executor;
    }

    /** The retry loop over real executor calls. However it ends, the audit log has grown by exactly the traces
        of the attempts that the record counts, under the slot's trace id. */
    method RetryLoop(ghost start: Machine.State, d: Definition, at: Instant, finding: bool,
                     worlds: nat -> World, cancels: nat -> seq<string>, sink: Machine.Sink)
      returns (run: Machine.Run)
      requires Facade.OneOpen(start) && start == scheduler.View().(frames := start.frames)
      requires Machine.Top(start) == Machine.Frame(Machine.Top(start).serial, d, at, RunKey(d.id, at), 0, finding, false)
      modifies scheduler`history, scheduler`active, scheduler`cancelled, scheduler`log, executor.agent, executor.agent.audit
      ensures scheduler.View() == Facade.Finished(start, EnvironmentOf(executor.agent.runtime, executor.identity, d, worlds, cancels, sink))
      ensures RunKey(d.id, at) in scheduler.history && scheduler.history[RunKey(d.id, at)] == run
      ensures executor.agent.audit.events == old(executor.agent.audit.events)
              + AttemptLog(executor.agent.runtime, executor.identity, d, RunKey(d.id, at), old(executor.agent.runs), worlds, run.attempts)
      ensures Tells(run, 0, executor.agent.runtime, executor.identity, d, worlds)
      ensures run.status == Machine.Succeeded ==> TracesOf(executor.agent.runtime, executor.identity, d, worlds, run.attempts)
    {
      hide Tells, TracesOf;
      hide RunKey, Facade.Finished, Facade.NextTurn, Machine.Closed, EnvironmentOf, OutcomeOf, AttemptTrace, AttemptLog, Audited, Ready;
      NoAttempts(executor.agent.runtime, executor.identity, d, RunKey(d.id, at), executor.agent.runs, worlds);
      var key := RunKey(d.id, at);
      ghost var rt, i := executor.agent.runtime, executor.identity;
      ghost var env := EnvironmentOf(rt, i, d, worlds, cancels, sink);
      EnvironmentDrives(rt, i, d, worlds, cancels, sink);
      RecordTellsAttempts(start, rt, i, worlds, env);
      SucceededRunTraces(start, rt, i, worlds, env);
      ghost var first, before := executor.agent.runs, executor.agent.audit.events;
      ghost var m := start;
      var attempts := 0;
      while attempts <= d.retryLimit
        invariant Facade.OneOpen(m) && m == scheduler.View().(frames := m.frames)
        invariant Machine.Top(m) == Machine.Frame(Machine.Top(start).serial, d, at, key, attempts, finding, false)
        invariant Facade.Finished(start, env) == Facade.Finished(m, env)
        invariant executor.agent.runs == first + if Ready(d) then attempts else 0
        invariant executor.agent.audit.events == before + AttemptLog(rt, i, d, key, first, worlds, attempts)
      {
        if key in scheduler.cancelled {
          CancelledFinish(m, env);
          run := scheduler.Close(m, d, attempts, at, Machine.Cancelled, "schedule was cancelled", false, Machine.NoSink);
          return;
        }
        EnvironmentAt(rt, i, d, worlds, cancels, sink, attempts);
        var outcome := executor.Execute(d, key, worlds(attempts));
        AttemptLogged(rt, i, d, key, first, worlds, attempts);
        var left := scheduler.Settle(m, env, d, at, attempts, finding, Facade.Effect(cancels(attempts), outcome), sink);
        if left.Some? {
          return left.value;
        }
        NextTop(m, env);
        m := Facade.NextTurn(m, env);
        attempts := attempts + 1;
      }
      assert false;
    }

    /** `trigger` with the agent as executor. A trigger that answers by itself leaves no trace. */
    method Trigger(id: string, now: Instant, approved: bool, finding: bool, worlds: nat -> World, cancels: nat -> seq<string>, sink: Machine.Sink)
      returns (run: Option<Machine.Run>, ghost entered: bool)
      requires scheduler.Valid()
      modifies scheduler, executor.agent, executor.agent.audit
      ensures scheduler.Valid() && scheduler.definitions == old(scheduler.definitions)
      ensures entered <==> Machine.Started(old(scheduler.View()), id, now, approved, finding).frames != []
      ensures !entered ==> executor.agent.audit.events == old(executor.agent.audit.events)
      ensures entered ==> run.Some? && id in scheduler.definitions && Due(scheduler.definitions[id], now)
      ensures entered ==>
                var d := scheduler.definitions[id];
                executor.agent.audit.events == old(executor.agent.audit.events)
                + AttemptLog(executor.agent.runtime, executor.identity, d, RunKey(id, Slot(d, now)), old(executor.agent.runs), worlds, run.value.attempts)
      ensures run == Facade.Answer(old(scheduler.View()), scheduler.View(), id, now, approved)
      ensures entered ==> Machine.Permitted(old(scheduler.View()), id, now, approved)
    {
      hide Machine.Reachable, RunKey, Machine.Inv, Facade.Finished, Machine.Started, Facade.Answer, AttemptLog, Machine.Permitted;
      ghost var before := scheduler.View();
      Machine.TriggerOpensIff(before, Machine.Flat, id, now, approved, finding);
      var opens;
      Facade.StartedShapeAt(before, id, now, approved, finding);
      ghost var start := Machine.Started(before, id, now, approved, finding);
      opens, run := scheduler.Enter(id, now, approved, finding);
      entered := opens;
      ghost var i, rt := executor.identity, executor.agent.runtime;
      if opens {
        var d := scheduler.definitions[id];
        Facade.TriggeredReachable(before, id, now, approved, finding, EnvironmentOf(rt, i, d, worlds, cancels, sink));
        var r := RetryLoop(start, d, Slot(d, now), finding, worlds, cancels, sink);
        Facade.AnswerOfLoop(before, scheduler.View(), id, now, approved, finding);
        run := Some(r);
      } else {
        Facade.TriggeredReachable(before, id, now, approved, finding, Facade.Environment((n: nat) => Facade.Effect([], Facade.Raised), sink));
      }
    }
  }

  lemma EnvironmentAt(rt: Runtime, i: Identity, d: Definition, worlds: nat -> World, cancels: nat -> seq<string>, sink: Machine.Sink, n: nat)
    ensures var env := EnvironmentOf(rt, i, d, worlds, cancels, sink);
            env.call(n) == Facade.Effect(cancels(n), OutcomeOf(rt, i, d, worlds(n))) && env.sink == sink
  {}

  lemma EnvironmentDrives(rt: Runtime, i: Identity, d: Definition, worlds: nat -> World, cancels: nat -> seq<string>, sink: Machine.Sink)
    ensures Drives(rt, i, d, worlds, EnvironmentOf(rt, i, d, worlds, cancels, sink))
  {
    hide Succeeds, VerifiedMessage, Explanation;
  }

  lemma NoAttempts(rt: Runtime, i: Identity, d: Definition, key: string, run: nat, worlds: nat -> World)
    ensures AttemptLog(rt, i, d, key, run, worlds, 0) == []
  {}

  lemma CancelledFinish(m: Machine.State, env: Facade.Environment)
    requires Facade.OneOpen(m) && Machine.Top(m).key in m.cancelled
    ensures Facade.Finished(m, env) == Machine.Closed(m, Machine.Cancelled, "schedule was cancelled", false, Machine.NoSink)
  {
    hide Machine.Closed;
  }

  lemma NextTop(m: Machine.State, env: Facade.Environment)
    requires Facade.OneOpen(m)
    ensures Facade.NextTurn(m, env).frames == [Machine.Top(m).(attempts := Machine.Top(m).attempts + 1, calling := false)]
  {
    hide Facade.Marked, Facade.Signals;
  }

  lemma AttemptLogged(rt: Runtime, i: Identity, d: Definition, key: string, run: nat, worlds: nat -> World, attempts: nat)
    ensures var drawn := run + if Ready(d) then attempts else 0;
            AttemptLog(rt, i, d, key, run, worlds, attempts) + Audited("schedule-trace-" + key, drawn, i.workspaceId, AttemptTrace(rt, i, d, worlds(attempts)))
            == AttemptLog(rt, i, d, key, run, worlds, attempts + 1)
  {
    hide Events;
  }
}
