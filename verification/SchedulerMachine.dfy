/** The scheduler facade as a machine: public calls, executor calls and their outcomes are its steps,
    and an executor that is being called may call back into the scheduler. */
module SchedulerMachine {
  import opened IsoTime
  import opened Schedule
  import opened Cron
  import opened Text

  datatype Status = Succeeded | Failed | Skipped | Paused | Expired | Blocked | Cancelled

  datatype Run = Run(scheduleId: string, key: string, scheduledFor: string, status: Status,
                     attempts: nat, message: string, sent: bool, notifyError: Option<string>)

  /** A `trigger` call whose retry loop is open; `calling` while its executor is running. */
  datatype Frame = Frame(serial: nat, def: Definition, at: Instant, key: string, attempts: nat,
                         finding: bool, calling: bool)

  /** What happened to executors and cancellations, in order. `limit` is the retry limit in force. */
  datatype Event =
    | Called(serial: nat, key: string, limit: int)
    | Returned(serial: nat, key: string)
    | CancelSignal(key: string)

  datatype State = State(
    defs: map<string, Definition>, history: map<string, Run>, paused: set<string>,
    active: map<string, int>, cancelled: set<string>,
    frames: seq<Frame>, serial: nat, log: seq<Event>)

  const Empty := State(map[], map[], {}, map[], {}, [], 0, [])

  /** How the notification sink behaves: not configured, delivers, or raises an exception of this type. */
  datatype Sink = NoSink | Delivers | Raises(error: string)

  datatype Action =
    | Register(def: Definition)
    | Pause(id: string)
    | Resume(id: string)
    | Cancel(key: string)
    | Trigger(id: string, now: Instant, approved: bool, finding: bool)
    | Attempt                                 // the top of the retry loop
    | Return(message: string, sink: Sink)     // the running executor returns
    | Raise(sink: Sink)                       // the running executor raises

  /** Which runs are considered: all, those whose executors never call `trigger`, or those in which
      every registered schedule allows one run at a time. */
  datatype Mode = Any | Flat | Single

  // ---------------------------------------------------------------- steps

  predicate ValidDefinition(d: Definition) {
    && d.maxConcurrency > 0 && d.retryLimit >= 0
    && d.notifyOnlyIf in {"always", "finding_or_failure", "failure"}
    && (d.notifyChannel.Some? ==> !Blank(d.notifyChannel.value) && |d.notifyChannel.value| <= 64)
    && (d.scheduleType == "cron" && d.expression.Some? ==> Parsed(d.expression.value).Ok?)
  }

  function Recorded(history: map<string, Run>, id: string, status: Status, attempts: nat, message: string, at: Instant)
    : (h: map<string, Run>)
  {
    history[RunKey(id, at) := Run(id, RunKey(id, at), Iso(at), status, attempts, message, false, None)]
  }

  function ActiveOf(active: map<string, int>, id: string): int {
    if id in active then active[id] else 0
  }

  /** The early exits of `trigger`, which record under `now`; `None` when it goes on. */
  function EarlyExit(s: State, id: string, d: Definition, now: Instant, approved: bool): Option<(Status, string)> {
    if id in s.paused then Some((Paused, "schedule is paused"))
    else if d.permissionsMode != "read_only" && !approved then Some((Blocked, "scheduled write requires explicit approval"))
    else if d.expiresAt.Some? && now >= d.expiresAt.value then Some((Expired, "schedule has expired"))
    else if ScheduledFor(d, now) == Ok(None) then Some((Skipped, "not due"))
    else None
  }

  /** `trigger` up to its retry loop. */
  function Started(s: State, id: string, now: Instant, approved: bool, finding: bool): State {
    if id !in s.defs then s
    else
      var d := s.defs[id];
      var early := EarlyExit(s, id, d, now, approved);
      if early.Some? then
        s.(history := Recorded(s.history, id, early.value.0, 0, early.value.1, now))
      else if !Due(d, now) then s
      else
        var at := Slot(d, now);
        var key := RunKey(id, at);
        if key in s.history then s
        else if key in s.cancelled then
          s.(history := Recorded(s.history, id, Cancelled, 0, "schedule was cancelled", at))
        else if ActiveOf(s.active, id) >= d.maxConcurrency then
          s.(history := Recorded(s.history, id, Skipped, 0, "concurrency limit reached", at))
        else
          s.(active := s.active[id := ActiveOf(s.active, id) + 1],
             frames := s.frames + [Frame(s.serial, d, at, key, 0, finding, false)],
             serial := s.serial + 1)
  }

  /** The `finally` clause. */
  function Released(active: map<string, int>, id: string): map<string, int> {
    if ActiveOf(active, id) - 1 == 0 then active - {id} else active[id := ActiveOf(active, id) - 1]
  }

  function Top(s: State): Frame
    requires s.frames != []
  {
    s.frames[|s.frames| - 1]
  }

  function Rest(s: State): seq<Frame>
    requires s.frames != []
  {
    s.frames[..|s.frames| - 1]
  }

  function ShouldNotify(d: Definition, status: Status, finding: bool): bool {
    || d.notifyOnlyIf == "always"
    || (d.notifyOnlyIf == "finding_or_failure" && (finding || status == Failed || status == Blocked))
    || (d.notifyOnlyIf == "failure" && (status == Failed || status == Blocked))
  }

  function Notified(d: Definition, r: Run, finding: bool, sink: Sink): Run {
    if sink.NoSink? || d.notifyChannel.None? || !ShouldNotify(d, r.status, finding) then r
    else if sink.Delivers? then r.(sent := true)
    else r.(notifyError := Some(sink.error))
  }

  /** Leave the top frame, with its terminal record. */
  function Closed(s: State, status: Status, message: string, finding: bool, sink: Sink): State
    requires s.frames != []
  {
    var f := Top(s);
    var h := Recorded(s.history, f.def.id, status, f.attempts, message, f.at);
    s.(history := h[f.key := Notified(f.def, Run(f.def.id, RunKey(f.def.id, f.at), Iso(f.at), status, f.attempts, message, false, None), finding, sink)],
       active := Released(s.active, f.def.id),
       frames := Rest(s))
  }

  /** The code that may act: outside all triggers, or inside the executor of the innermost one. */
  predicate InCaller(s: State) {
    s.frames == [] || Top(s).calling
  }

  predicate Enabled(s: State, a: Action) {
    match a
    case Register(_) => InCaller(s)
    case Pause(_) => InCaller(s)
    case Resume(_) => InCaller(s)
    case Cancel(_) => true
    case Trigger(_, _, _, _) => InCaller(s)
    case Attempt => s.frames != [] && !Top(s).calling
    case Return(_, _) => s.frames != [] && Top(s).calling
    case Raise(_) => s.frames != [] && Top(s).calling
  }

  /** The loop test `attempts <= retry_limit`; where it fails the code raises "invalid terminal state". */
  predicate LoopTestHolds(s: State)
    requires s.frames != []
  {
    Top(s).attempts <= Top(s).def.retryLimit
  }

  function Step(s: State, a: Action): State
    requires Enabled(s, a)
  {
    match a
    case Register(d) =>
      if (d.id in s.defs && s.defs[d.id].version != d.version) || !ValidDefinition(d) then s
      else s.(defs := s.defs[d.id := d])
    case Pause(id) => if id in s.defs then s.(paused := s.paused + {id}) else s
    case Resume(id) => if id in s.defs then s.(paused := s.paused - {id}) else s
    case Cancel(key) =>
      if key == "" || |key| > 256 then s
      else s.(cancelled := s.cancelled + {key}, log := s.log + [CancelSignal(key)])
    case Trigger(id, now, approved, finding) => Started(s, id, now, approved, finding)
    case Attempt =>
      var f := Top(s);
      if !LoopTestHolds(s) then s.(active := Released(s.active, f.def.id), frames := Rest(s))
      else if f.key in s.cancelled then Closed(s, Cancelled, "schedule was cancelled", false, NoSink)
      else
        s.(frames := Rest(s) + [f.(attempts := f.attempts + 1, calling := true)],
           log := s.log + [Called(f.serial, f.key, f.def.retryLimit)])
    case Return(message, sink) =>
      Closed(s, Succeeded, message, Top(s).finding, sink).(log := s.log + [Returned(Top(s).serial, Top(s).key)])
    case Raise(sink) =>
      var f := Top(s);
      if f.attempts > f.def.retryLimit then
        Closed(s, Failed, "scheduled execution failed after retry limit", false, sink)
      else s.(frames := Rest(s) + [f.(calling := false)])
  }

  predicate Allowed(s: State, a: Action, mode: Mode) {
    && Enabled(s, a)
    && (mode.Flat? && a.Trigger? ==> s.frames == [])
    && (mode.Single? && a.Register? ==> a.def.maxConcurrency == 1)
  }

  /** The state after a run of the machine, if every action was allowed when it was taken. */
  function After(s: State, acts: seq<Action>, mode: Mode): Option<State> {
    if acts == [] then Some(s)
    else
      var before := After(s, acts[..|acts| - 1], mode);
      var a := acts[|acts| - 1];
      if before.Some? && Allowed(before.value, a, mode) then Some(Step(before.value, a)) else None
  }

  ghost predicate Reachable(s: State, mode: Mode) {
    exists acts :: After(Empty, acts, mode) == Some(s)
  }

  // ---------------------------------------------------------------- invariant

  function Open(frames: seq<Frame>, id: string): nat {
    if frames == [] then 0
    else Open(frames[..|frames| - 1], id) + (if frames[|frames| - 1].def.id == id then 1 else 0)
  }

  /** How often the executor was called for a key. */
  function Calls(log: seq<Event>, key: string): nat {
    if log == [] then 0
    else
      var e := log[|log| - 1];
      Calls(log[..|log| - 1], key) + (if e.Called? && e.key == key then 1 else 0)
  }

  predicate DefsOk(s: State, mode: Mode) {
    forall id <- s.defs ::
      && s.defs[id].id == id && s.defs[id].retryLimit >= 0 && s.defs[id].maxConcurrency > 0
      && (mode.Single? ==> s.defs[id].maxConcurrency == 1)
  }

  predicate FrameOk(f: Frame, serial: nat) {
    && f.serial < serial && f.key == RunKey(f.def.id, f.at) && f.def.retryLimit >= 0
    && f.attempts <= f.def.retryLimit + 1
    && (f.calling ==> f.attempts > 0)
    && (!f.calling ==> f.attempts <= f.def.retryLimit)
  }

  predicate FramesOk(frames: seq<Frame>, serial: nat, mode: Mode) {
    && (forall i :: 0 <= i < |frames| ==> FrameOk(frames[i], serial))
    && (forall i :: 0 <= i < |frames| - 1 ==> frames[i].calling)
    && (mode.Flat? ==> |frames| <= 1)
    && (!mode.Any? ==> forall i, j :: 0 <= i < j < |frames| ==> frames[i].def.id != frames[j].def.id)
  }

  /** `_active` counts exactly the open frames of each schedule. */
  ghost predicate Balanced(active: map<string, int>, frames: seq<Frame>) {
    && (forall id :: ActiveOf(active, id) == Open(frames, id))
    && (forall id <- active :: active[id] > 0)
  }

  /** No executor call starts after its key was cancelled. */
  predicate NoCallAfterCancel(log: seq<Event>) {
    forall i, j :: 0 <= i < j < |log| && log[i].CancelSignal? && log[j].Called? ==> log[i].key != log[j].key
  }

  /** No executor call starts after a success of its key. */
  predicate NoCallAfterSuccess(log: seq<Event>) {
    forall i, j :: 0 <= i < j < |log| && log[i].Returned? && log[j].Called? ==> log[i].key != log[j].key
  }

  /** All executor calls of one key are made inside one `trigger`. */
  predicate OneTriggerPerKey(log: seq<Event>) {
    forall i, j :: 0 <= i < j < |log| && log[i].Called? && log[j].Called? && log[i].key == log[j].key ==>
      log[i].serial == log[j].serial && log[i].limit == log[j].limit
  }

  /** One call and at most `limit` retries. */
  predicate CallsWithinLimit(log: seq<Event>) {
    forall i :: 0 <= i < |log| && log[i].Called? ==> Calls(log, log[i].key) <= log[i].limit + 1
  }

  predicate CancelsOk(s: State) {
    && (forall i :: 0 <= i < |s.log| && s.log[i].CancelSignal? ==> s.log[i].key in s.cancelled)
    && NoCallAfterCancel(s.log)
  }

  ghost predicate OpenFor(frames: seq<Frame>, key: string) {
    exists i :: 0 <= i < |frames| && frames[i].key == key
  }

  /** Every executor call belongs to the open frame of its key, or its key has a terminal record. */
  ghost predicate CallsOk(done: set<string>, frames: seq<Frame>, log: seq<Event>) {
    && (forall i :: 0 <= i < |log| && log[i].Called? ==> log[i].key in done || OpenFor(frames, log[i].key))
    && (forall i, j :: 0 <= i < |log| && log[i].Called? && 0 <= j < |frames| && frames[j].key == log[i].key ==>
          log[i].serial == frames[j].serial && log[i].limit == frames[j].def.retryLimit)
    && (forall j :: 0 <= j < |frames| ==> Calls(log, frames[j].key) == frames[j].attempts)
    && (forall i :: 0 <= i < |log| && log[i].Returned? ==> log[i].key in done && !OpenFor(frames, log[i].key))
    && CallsWithinLimit(log) && OneTriggerPerKey(log) && NoCallAfterSuccess(log)
  }

  ghost predicate Inv(s: State, mode: Mode) {
    DefsOk(s, mode) && FramesOk(s.frames, s.serial, mode) && Balanced(s.active, s.frames) && CancelsOk(s)
    && (!mode.Any? ==> CallsOk(s.history.Keys, s.frames, s.log))
  }

  // ---------------------------------------------------------------- preservation

  /** What a step does to the stack of open frames. */
  datatype Shape = Keep | Push(f: Frame) | Pop | Swap(f: Frame)

  function ShapeOf(s: State, a: Action): Shape
    requires Enabled(s, a)
  {
    match a
    case Trigger(id, now, approved, finding) =>
      var t := Started(s, id, now, approved, finding);
      if t.serial == s.serial then Keep else Push(Frame(s.serial, s.defs[id], Slot(s.defs[id], now), RunKey(id, Slot(s.defs[id], now)), 0, finding, false))
    case Attempt =>
      if LoopTestHolds(s) && Top(s).key !in s.cancelled then Swap(Top(s).(attempts := Top(s).attempts + 1, calling := true)) else Pop
    case Return(_, _) => Pop
    case Raise(_) => if Top(s).attempts > Top(s).def.retryLimit then Pop else Swap(Top(s).(calling := false))
    case _ => Keep
  }

  ghost predicate HasShape(s: State, t: State, shape: Shape) {
    match shape
    case Keep => t.frames == s.frames && t.active == s.active && t.serial == s.serial
    case Push(f) =>
      && t.frames == s.frames + [f] && t.serial == s.serial + 1
      && t.active == s.active[f.def.id := ActiveOf(s.active, f.def.id) + 1]
    case Pop => s.frames != [] && t.frames == Rest(s) && t.active == Released(s.active, Top(s).def.id) && t.serial == s.serial
    case Swap(f) =>
      && s.frames != [] && t.frames == Rest(s) + [f] && t.active == s.active && t.serial == s.serial
      && f.def == Top(s).def && f.serial == Top(s).serial && f.key == Top(s).key && f.at == Top(s).at
  }

  /** Facts that let a trigger open a frame. */
  predicate MayPush(s: State, f: Frame) {
    && f.def.id in s.defs && f.def == s.defs[f.def.id] && f.serial == s.serial
    && f.key == RunKey(f.def.id, f.at) && f.attempts == 0 && !f.calling
    && f.key !in s.history && f.key !in s.cancelled
    && ActiveOf(s.active, f.def.id) < f.def.maxConcurrency
  }

  lemma StepShape(s: State, a: Action, mode: Mode)
    requires DefsOk(s, mode) && Enabled(s, a)
    ensures HasShape(s, Step(s, a), ShapeOf(s, a))
    ensures ShapeOf(s, a).Push? ==> a.Trigger? && MayPush(s, ShapeOf(s, a).f)
  {
    hide RunKey, Slot, Due, Recorded, Notified, Started, Iso, Released, ActiveOf, ValidDefinition;
    if a.Trigger? { StartedShape(s, a.id, a.now, a.approved, a.finding, mode); }
  }

  /** What the part of `trigger` before its retry loop can change. */
  lemma StartedShape(s: State, id: string, now: Instant, approved: bool, finding: bool, mode: Mode)
    requires DefsOk(s, mode)
    ensures var t := Started(s, id, now, approved, finding);
            && t.defs == s.defs && t.log == s.log && t.cancelled == s.cancelled
            && (forall k <- s.history :: k in t.history)
            && (t.serial == s.serial ==> t.frames == s.frames && t.active == s.active)
            && (t.serial != s.serial ==>
                  && id in s.defs && Due(s.defs[id], now) && s.defs[id].id == id
                  && var at := Slot(s.defs[id], now);
                  var f := Frame(s.serial, s.defs[id], at, RunKey(id, at), 0, finding, false);
                  && t.frames == s.frames + [f] && t.serial == s.serial + 1 && MayPush(s, f)
                  && t.active == s.active[id := ActiveOf(s.active, id) + 1])
  {
    hide RunKey, Slot, Due, Iso;
  }

  /** Frames of different schedules have different keys. */
  lemma DistinctKeys(f: Frame, g: Frame)
    requires f.key == RunKey(f.def.id, f.at) && g.key == RunKey(g.def.id, g.at) && f.def.id != g.def.id
    ensures f.key != g.key
  {
    hide RunKey;
    RunKeyInjective(f.def.id, f.at, g.def.id, g.at);
  }

  lemma OpenAppend(frames: seq<Frame>, f: Frame, id: string)
    ensures Open(frames + [f], id) == Open(frames, id) + (if f.def.id == id then 1 else 0)
  {
    assert (frames + [f])[..|frames|] == frames;
  }

  lemma CallsAppend(log: seq<Event>, e: Event, key: string)
    ensures Calls(log + [e], key) == Calls(log, key) + (if e.Called? && e.key == key then 1 else 0)
  {
    assert (log + [e])[..|log|] == log;
  }

  lemma BalancedStep(s: State, t: State, shape: Shape)
    requires Balanced(s.active, s.frames) && HasShape(s, t, shape)
    ensures Balanced(t.active, t.frames)
  {
    hide RunKey;
    forall id
      ensures ActiveOf(t.active, id) == Open(t.frames, id)
    {
      assert ActiveOf(s.active, id) == Open(s.frames, id);
      if shape.Push? {
        OpenAppend(s.frames, shape.f, id);
      } else if !shape.Keep? {
        assert s.frames == Rest(s) + [Top(s)];
        OpenAppend(Rest(s), Top(s), id);
        if shape.Swap? { OpenAppend(Rest(s), shape.f, id); }
      }
    }
    if shape.Push? { assert ActiveOf(s.active, shape.f.def.id) == Open(s.frames, shape.f.def.id); }
  }

  /** An open frame is counted, so that a limit of one bars a second run of the same schedule. */
  lemma {:induction false} OpenBars(frames: seq<Frame>, i: nat)
    requires i < |frames|
    ensures Open(frames, frames[i].def.id) >= 1
  {
    if i < |frames| - 1 { OpenBars(frames[..|frames| - 1], i); }
  }

  lemma PushIsAlone(s: State, a: Action, mode: Mode, i: nat)
    requires Inv(s, mode) && Allowed(s, a, mode) && ShapeOf(s, a).Push? && !mode.Any? && i < |s.frames|
    ensures s.frames[i].def.id != ShapeOf(s, a).f.def.id
  {
    hide Step, ShapeOf, RunKey;
    var id := ShapeOf(s, a).f.def.id;
    StepShape(s, a, mode);
    OpenBars(s.frames, i);
    assert ActiveOf(s.active, id) == Open(s.frames, id);
  }

  lemma StepFrames(s: State, a: Action, mode: Mode)
    requires Inv(s, mode) && Allowed(s, a, mode)
    ensures FramesOk(Step(s, a).frames, Step(s, a).serial, mode)
  {
    hide Step, RunKey, Open, Started, Due, Slot;
    StepShape(s, a, mode);
    var shape := ShapeOf(s, a);
    if shape.Push? {
      if !mode.Any? {
        forall i | 0 <= i < |s.frames|
          ensures s.frames[i].def.id != shape.f.def.id
        {
          PushIsAlone(s, a, mode, i);
        }
      }
      assert FrameOk(shape.f, s.serial + 1);
    } else if shape.Swap? {
      assert FrameOk(Top(s), s.serial);
      assert FrameOk(shape.f, s.serial);
    }
  }

  lemma StepDefs(s: State, a: Action, mode: Mode)
    requires DefsOk(s, mode) && Allowed(s, a, mode)
    ensures DefsOk(Step(s, a), mode)
  {
    hide RunKey, Slot, Due, Parsed, Recorded, Notified, Started, Iso, Released, ActiveOf;
    if a.Trigger? { StartedShape(s, a.id, a.now, a.approved, a.finding, mode); }
  }

  /** Marks and records are only added, apart from triggers only for the running slot. */
  lemma StepHistory(s: State, a: Action, mode: Mode)
    requires DefsOk(s, mode) && Enabled(s, a)
    ensures s.cancelled <= Step(s, a).cancelled
    ensures forall k <- s.history :: k in Step(s, a).history
    ensures !a.Trigger? && s.frames != [] ==>
              forall k <- Step(s, a).history :: k in s.history || k == Top(s).key || k == RunKey(Top(s).def.id, Top(s).at)
    ensures ShapeOf(s, a).Pop? && !(a.Attempt? && !LoopTestHolds(s)) ==> Top(s).key in Step(s, a).history
  {
    hide RunKey, Slot, Due, Notified, Started, Iso, Released, ActiveOf, ValidDefinition, DefsOk;
    if a.Trigger? { StartedShape(s, a.id, a.now, a.approved, a.finding, mode); }
  }

  /** The log grows by at most one event, of the kind the step calls for. */
  lemma StepLog(s: State, a: Action, mode: Mode)
    requires DefsOk(s, mode) && Enabled(s, a)
    ensures a.Attempt? && LoopTestHolds(s) && Top(s).key !in s.cancelled ==>
              Step(s, a).log == s.log + [Called(Top(s).serial, Top(s).key, Top(s).def.retryLimit)]
    ensures a.Return? ==> Step(s, a).log == s.log + [Returned(Top(s).serial, Top(s).key)]
    ensures a.Cancel? && Step(s, a) != s ==> Step(s, a).log == s.log + [CancelSignal(a.key)] && a.key in Step(s, a).cancelled
    ensures !a.Attempt? && !a.Return? && !a.Cancel? ==> Step(s, a).log == s.log
    ensures a.Attempt? && !(LoopTestHolds(s) && Top(s).key !in s.cancelled) ==> Step(s, a).log == s.log
    ensures s.cancelled <= Step(s, a).cancelled
    ensures forall k <- s.history :: k in Step(s, a).history
    ensures !a.Trigger? && s.frames != [] ==>
              forall k <- Step(s, a).history :: k in s.history || k == Top(s).key || k == RunKey(Top(s).def.id, Top(s).at)
    ensures ShapeOf(s, a).Pop? && !(a.Attempt? && !LoopTestHolds(s)) ==> Top(s).key in Step(s, a).history
  {
    hide RunKey, Slot, Due, Notified, Recorded, Started, Iso, Released, ActiveOf, ValidDefinition, DefsOk, ShapeOf;
    StepHistory(s, a, mode);
    if a.Trigger? { StartedShape(s, a.id, a.now, a.approved, a.finding, mode); }
  }

  lemma StepCancels(s: State, a: Action, mode: Mode)
    requires Inv(s, mode) && Allowed(s, a, mode)
    ensures CancelsOk(Step(s, a))
  {
    hide Step, RunKey, ShapeOf;
    StepLog(s, a, mode);
  }

  lemma {:induction false} NeverCalled(log: seq<Event>, key: string)
    requires forall i :: 0 <= i < |log| && log[i].Called? ==> log[i].key != key
    ensures Calls(log, key) == 0
  {
    if log != [] { NeverCalled(log[..|log| - 1], key); }
  }

  /** The top frame calls its executor once more. */
  lemma CallsCall(done: set<string>, rest: seq<Frame>, f: Frame, g: Frame, log: seq<Event>)
    requires CallsOk(done, rest + [f], log)
    requires g.serial == f.serial && g.key == f.key && g.def == f.def && g.attempts == f.attempts + 1
    requires f.attempts <= f.def.retryLimit
    requires forall i :: 0 <= i < |rest| ==> rest[i].key != f.key
    ensures CallsOk(done, rest + [g], log + [Called(f.serial, f.key, f.def.retryLimit)])
  {
    var e := Called(f.serial, f.key, f.def.retryLimit);
    var before, after, log' := rest + [f], rest + [g], log + [e];
    SameKeys(rest, f, g);
    assert after[|rest|].key == f.key && before[|rest|] == f;
    assert forall j :: 0 <= j < |rest| ==> before[j] == rest[j] && after[j] == rest[j];
    forall key
      ensures Calls(log', key) == Calls(log, key) + (if key == f.key then 1 else 0)
    {
      CallsAppend(log, e, key);
    }
    assert Calls(log, f.key) == f.attempts;
    assert OpenFor(before, f.key);
  }

  lemma SameKeys(rest: seq<Frame>, f: Frame, g: Frame)
    requires g.key == f.key
    ensures forall key :: OpenFor(rest + [f], key) <==> OpenFor(rest + [g], key)
  {
    forall key
      ensures OpenFor(rest + [f], key) <==> OpenFor(rest + [g], key)
    {
      if i :| 0 <= i < |rest + [f]| && (rest + [f])[i].key == key { assert (rest + [g])[i].key == key; }
      if i :| 0 <= i < |rest + [g]| && (rest + [g])[i].key == key { assert (rest + [f])[i].key == key; }
    }
  }

  /** The executor raised and the loop goes on. */
  lemma CallsSwap(done: set<string>, rest: seq<Frame>, f: Frame, g: Frame, log: seq<Event>)
    requires CallsOk(done, rest + [f], log)
    requires g.serial == f.serial && g.key == f.key && g.def == f.def && g.attempts == f.attempts
    ensures CallsOk(done, rest + [g], log)
  {
    SameKeys(rest, f, g);
    assert forall j :: 0 <= j < |rest| ==> (rest + [f])[j] == (rest + [g])[j];
    assert (rest + [f])[|rest|] == f;
  }

  /** A trigger opens a frame for a key without a record. */
  lemma CallsPush(done: set<string>, frames: seq<Frame>, f: Frame, log: seq<Event>)
    requires CallsOk(done, frames, log)
    requires f.key !in done && f.attempts == 0
    requires forall i :: 0 <= i < |frames| ==> frames[i].key != f.key
    ensures CallsOk(done, frames + [f], log)
  {
    var after := frames + [f];
    forall key | OpenFor(frames, key)
      ensures OpenFor(after, key)
    {
      var i :| 0 <= i < |frames| && frames[i].key == key;
      assert after[i].key == key;
    }
    assert !OpenFor(frames, f.key);
    NeverCalled(log, f.key);
    forall key | OpenFor(after, key)
      ensures OpenFor(frames, key) || key == f.key
    {
      var i :| 0 <= i < |after| && after[i].key == key;
      if i < |frames| { assert frames[i].key == key; }
    }
  }

  /** The top frame closes with a record of its key; `more` are the log's new entries. */
  lemma CallsPop(done: set<string>, done': set<string>, rest: seq<Frame>, f: Frame, log: seq<Event>, returned: bool)
    requires CallsOk(done, rest + [f], log)
    requires done <= done' && f.key in done'
    requires forall i :: 0 <= i < |rest| ==> rest[i].key != f.key
    ensures CallsOk(done', rest, if returned then log + [Returned(f.serial, f.key)] else log)
  {
    var before := rest + [f];
    forall key | OpenFor(before, key)
      ensures OpenFor(rest, key) || key == f.key
    {
      var i :| 0 <= i < |before| && before[i].key == key;
      if i < |rest| { assert rest[i].key == key; }
    }
    forall key | OpenFor(rest, key)
      ensures OpenFor(before, key)
    {
      var i :| 0 <= i < |rest| && rest[i].key == key;
      assert before[i].key == key;
    }
    assert forall j :: 0 <= j < |rest| ==> before[j] == rest[j];
    if returned {
      var e := Returned(f.serial, f.key);
      forall key
        ensures Calls(log + [e], key) == Calls(log, key)
      {
        CallsAppend(log, e, key);
      }
    }
  }

  lemma CallsMore(done: set<string>, done': set<string>, frames: seq<Frame>, log: seq<Event>)
    requires CallsOk(done, frames, log) && done <= done'
    ensures CallsOk(done', frames, log)
  {}

  lemma CallsCancelSignal(done: set<string>, frames: seq<Frame>, log: seq<Event>, k: string)
    requires CallsOk(done, frames, log)
    ensures CallsOk(done, frames, log + [CancelSignal(k)])
  {
    forall key
      ensures Calls(log + [CancelSignal(k)], key) == Calls(log, key)
    {
      CallsAppend(log, CancelSignal(k), key);
    }
  }

  lemma TopIsAlone(s: State, mode: Mode)
    requires FramesOk(s.frames, s.serial, mode) && !mode.Any? && s.frames != []
    ensures forall i :: 0 <= i < |Rest(s)| ==> Rest(s)[i].key != Top(s).key
  {
    hide RunKey;
    forall i | 0 <= i < |Rest(s)|
      ensures Rest(s)[i].key != Top(s).key
    {
      assert FrameOk(Top(s), s.serial) && FrameOk(s.frames[i], s.serial);
      DistinctKeys(s.frames[i], Top(s));
    }
  }

  lemma PushKeyIsNew(s: State, a: Action, mode: Mode)
    requires Inv(s, mode) && Allowed(s, a, mode) && ShapeOf(s, a).Push? && !mode.Any?
    ensures forall i :: 0 <= i < |s.frames| ==> s.frames[i].key != ShapeOf(s, a).f.key
  {
    hide Step, ShapeOf, RunKey, CallsOk, Balanced, CancelsOk;
    StepShape(s, a, mode);
    forall i | 0 <= i < |s.frames|
      ensures s.frames[i].key != ShapeOf(s, a).f.key
    {
      PushIsAlone(s, a, mode, i);
      assert FrameOk(s.frames[i], s.serial);
      DistinctKeys(s.frames[i], ShapeOf(s, a).f);
    }
  }

  lemma StepCalls(s: State, a: Action, mode: Mode)
    requires Inv(s, mode) && Allowed(s, a, mode) && !mode.Any?
    ensures CallsOk(Step(s, a).history.Keys, Step(s, a).frames, Step(s, a).log)
  {
    hide Step, RunKey, CallsOk, Balanced, CancelsOk, Started, Due, Slot;
    var t := Step(s, a);
    StepShape(s, a, mode);
    StepLog(s, a, mode);
    if s.frames != [] {
      assert FrameOk(Top(s), s.serial);
      assert s.frames == Rest(s) + [Top(s)];
      TopIsAlone(s, mode);
    }
    match ShapeOf(s, a)
    case Push(f) =>
      PushKeyIsNew(s, a, mode);
      CallsPush(s.history.Keys, s.frames, f, s.log);
      CallsMore(s.history.Keys, t.history.Keys, t.frames, t.log);
    case Pop =>
      CallsPop(s.history.Keys, t.history.Keys, Rest(s), Top(s), s.log, a.Return?);
    case Swap(g) =>
      if a.Attempt? {
        CallsCall(s.history.Keys, Rest(s), Top(s), g, s.log);
      } else {
        CallsSwap(s.history.Keys, Rest(s), Top(s), g, s.log);
      }
      CallsMore(s.history.Keys, t.history.Keys, t.frames, t.log);
    case Keep =>
      if a.Cancel? && t != s { CallsCancelSignal(s.history.Keys, s.frames, s.log, a.key); }
      CallsMore(s.history.Keys, t.history.Keys, t.frames, t.log);
  }

  lemma StepInv(s: State, a: Action, mode: Mode)
    requires Inv(s, mode) && Allowed(s, a, mode)
    ensures Inv(Step(s, a), mode)
  {
    hide Step, CallsOk, Balanced, CancelsOk, FramesOk;
    StepDefs(s, a, mode);
    StepFrames(s, a, mode);
    StepShape(s, a, mode);
    BalancedStep(s, Step(s, a), ShapeOf(s, a));
    StepCancels(s, a, mode);
    if !mode.Any? { StepCalls(s, a, mode); }
  }

  lemma {:induction false} RunInv(s: State, acts: seq<Action>, mode: Mode)
    requires Inv(s, mode) && After(s, acts, mode).Some?
    ensures Inv(After(s, acts, mode).value, mode)
    decreases |acts|
  {
    hide Step, Inv;
    if acts != [] {
      RunInv(s, acts[..|acts| - 1], mode);
      StepInv(After(s, acts[..|acts| - 1], mode).value, acts[|acts| - 1], mode);
    }
  }

  lemma EmptyInv(mode: Mode)
    ensures Inv(Empty, mode) && FreshWhileOpen(Empty)
  {}

  lemma ReachableInv(s: State, mode: Mode)
    requires Reachable(s, mode)
    ensures Inv(s, mode)
  {
    hide Step;
    var acts :| After(Empty, acts, mode) == Some(s);
    EmptyInv(mode);
    RunInv(Empty, acts, mode);
  }

  // ---------------------------------------------------------------- theorems

  /** In every run the counter of active executions equals the number of open retry loops, and the
      statement after the retry loop is never reached. */
  lemma ActiveCountsFrames(s: State, mode: Mode)
    requires Reachable(s, mode)
    ensures forall id :: ActiveOf(s.active, id) == Open(s.frames, id)
    ensures s.frames != [] && !Top(s).calling ==> LoopTestHolds(s)
  {
    hide Step;
    ReachableInv(s, mode);
    if s.frames != [] { assert FrameOk(Top(s), s.serial); }
  }

  /** In every run no executor call starts after its key was cancelled. */
  lemma CancelStopsCalls(s: State, mode: Mode)
    requires Reachable(s, mode)
    ensures NoCallAfterCancel(s.log)
  {
    hide Step;
    ReachableInv(s, mode);
  }

  /** Without re-entry, or with one run at a time per schedule, a slot's executor is called inside one
      trigger only, at most `retry_limit + 1` times, and never again after it succeeded. */
  lemma SlotRunsOnce(s: State, mode: Mode)
    requires Reachable(s, mode) && !mode.Any?
    ensures OneTriggerPerKey(s.log) && CallsWithinLimit(s.log) && NoCallAfterSuccess(s.log)
  {
    hide Step;
    ReachableInv(s, mode);
  }

  /** What closes a slot leaves the record that tells how: it succeeded with the executor's message when that
      returned, failed when that raised for the last allowed time, and was cancelled otherwise. Its attempts
      are all the executor calls its slot ever had. */
  lemma RecordCountsCalls(s: State, a: Action, mode: Mode)
    requires Reachable(s, mode) && Allowed(s, a, mode) && ShapeOf(s, a).Pop?
    ensures var f := Top(s);
            && f.key in Step(s, a).history
            && var r := Step(s, a).history[f.key];
            && r.scheduleId == f.def.id && r.key == f.key && r.scheduledFor == Iso(f.at)
            && (a.Return? ==> r.status == Succeeded && r.message == a.message)
            && (a.Raise? ==> r.status == Failed && r.attempts == f.def.retryLimit + 1)
            && (a.Attempt? ==> r.status == Cancelled && f.key in s.cancelled && !r.sent && r.notifyError.None?)
            && (!mode.Any? ==> r.attempts == Calls(Step(s, a).log, f.key))
  {
    hide Slot, Due, Started, Iso, Released, ActiveOf, ValidDefinition, RunKey, Open, Balanced, After;
    ReachableInv(s, mode);
    assert FrameOk(Top(s), s.serial);
    if a.Return? { CallsAppend(s.log, Returned(Top(s).serial, Top(s).key), Top(s).key); }
  }

  /** Who is told: the sink gets a record exactly when there is one, the schedule has a channel, and its
      condition is met by what the executor did. Its answer is kept on the record. */
  lemma NotifiedIff(s: State, a: Action, mode: Mode)
    requires Reachable(s, mode) && Allowed(s, a, mode) && (a.Return? || a.Raise?) && ShapeOf(s, a).Pop?
    ensures var f := Top(s);
            && f.key in Step(s, a).history
            && var r := Step(s, a).history[f.key];
            && (r.sent || r.notifyError.Some? <==>
                  && !a.sink.NoSink? && f.def.notifyChannel.Some?
                  && match f.def.notifyOnlyIf
                     case "always" => true
                     case "finding_or_failure" => a.Raise? || f.finding
                     case "failure" => a.Raise?
                     case _ => false)
            && (r.sent ==> a.sink.Delivers?) && (r.notifyError.Some? ==> a.sink == Raises(r.notifyError.value))
  {
    hide Slot, Due, Started, Iso, Released, ActiveOf, ValidDefinition, RunKey, Open, Balanced, After;
    ReachableInv(s, mode);
    assert FrameOk(Top(s), s.serial);
  }

  // ---------------------------------------------------------------- which triggers may call an executor

  /** The trigger is of a registered schedule that only reads, or was approved, which is not paused and not
      expired, and has a slot at this time. */
  predicate Permitted(s: State, id: string, now: Instant, approved: bool) {
    && id in s.defs && id !in s.paused
    && (s.defs[id].permissionsMode == "read_only" || approved)
    && (s.defs[id].expiresAt.Some? ==> now < s.defs[id].expiresAt.value)
    && Due(s.defs[id], now)
  }

  /** A trigger opens its retry loop exactly when it is permitted, its slot has no record and was not
      cancelled, and fewer loops of the schedule are open than it allows. */
  lemma TriggerOpensIff(s: State, mode: Mode, id: string, now: Instant, approved: bool, finding: bool)
    requires Reachable(s, mode)
    ensures Started(s, id, now, approved, finding).frames != s.frames <==>
            && Permitted(s, id, now, approved)
            && RunKey(id, Slot(s.defs[id], now)) !in s.history && RunKey(id, Slot(s.defs[id], now)) !in s.cancelled
            && Open(s.frames, id) < s.defs[id].maxConcurrency
    ensures Started(s, id, now, approved, finding).frames != s.frames ==>
              var at := Slot(s.defs[id], now);
              Started(s, id, now, approved, finding).frames == s.frames + [Frame(s.serial, s.defs[id], at, RunKey(id, at), 0, finding, false)]
  {
    hide After, RunKey, Slot, ScheduledFor, Iso;
    ReachableInv(s, mode);
    assert ActiveOf(s.active, id) == Open(s.frames, id);
    DueIsNot(s, id, now);
  }

  lemma DueIsNot(s: State, id: string, now: Instant)
    ensures id in s.defs && Due(s.defs[id], now) ==> ScheduledFor(s.defs[id], now) != Ok(None)
  {
    hide ScheduledFor;
  }

  /** What a trigger that is refused leaves: a record without attempts under the time it was made at, with
      the first reason that applies; nothing if the slot computation raises. */
  lemma RefusalIsRecorded(s: State, id: string, now: Instant, approved: bool, finding: bool)
    requires id in s.defs && !Permitted(s, id, now, approved)
    ensures var t, key, d := Started(s, id, now, approved, finding), RunKey(id, now), s.defs[id];
            var expired := d.expiresAt.Some? && d.expiresAt.value <= now;
            var status := if id in s.paused then Some(Paused)
                          else if d.permissionsMode != "read_only" && !approved then Some(Blocked)
                          else if expired then Some(Expired)
                          else if d.scheduleType == "one_shot" && d.at.Some? && ScheduledFor(d, now).Ok? then Some(Skipped)
                          else None;
            && t == s.(history := t.history)
            && (status.None? ==> t.history == s.history)
            && (status.Some? ==> key in t.history && t.history == s.history[key := t.history[key]]
                                 && t.history[key].status == status.value && t.history[key].attempts == 0
                                 && !t.history[key].sent && t.history[key].scheduleId == id
                                 && t.history[key].key == key && t.history[key].scheduledFor == Iso(now))
  {
    hide RunKey, Iso;
    NotDueIff(s.defs[id], now);
    hide ScheduledFor;
  }

  /** The k-th action of the run is the permitted trigger that opened the retry loop with this serial number. */
  ghost predicate OpenedBy(acts: seq<Action>, k: nat, serial: nat, key: string, mode: Mode) {
    && k < |acts| && acts[k].Trigger? && After(Empty, acts[..k], mode).Some?
    && var u, a := After(Empty, acts[..k], mode).value, acts[k];
       Permitted(u, a.id, a.now, a.approved) && u.serial == serial && key == RunKey(a.id, Slot(u.defs[a.id], a.now))
  }

  ghost predicate HasOpener(acts: seq<Action>, serial: nat, key: string, mode: Mode) {
    exists k: nat :: OpenedBy(acts, k, serial, key, mode)
  }

  lemma OpenerStays(acts: seq<Action>, a: Action, serial: nat, key: string, mode: Mode)
    requires HasOpener(acts, serial, key, mode)
    ensures HasOpener(acts + [a], serial, key, mode)
  {
    hide After, Permitted, RunKey, Slot;
    var k: nat :| OpenedBy(acts, k, serial, key, mode);
    assert (acts + [a])[..k] == acts[..k];
    assert OpenedBy(acts + [a], k, serial, key, mode);
  }

  /** Every open retry loop and every executor call of a run comes from a permitted trigger of that run. */
  ghost predicate AllOpened(acts: seq<Action>, s: State, mode: Mode) {
    && (forall i :: 0 <= i < |s.frames| ==> HasOpener(acts, s.frames[i].serial, s.frames[i].key, mode))
    && (forall i :: 0 <= i < |s.log| && s.log[i].Called? ==> HasOpener(acts, s.log[i].serial, s.log[i].key, mode))
  }

  lemma StepOpened(acts: seq<Action>, s: State, a: Action, mode: Mode)
    requires After(Empty, acts, mode) == Some(s) && AllOpened(acts, s, mode) && Inv(s, mode) && Allowed(s, a, mode)
    ensures AllOpened(acts + [a], Step(s, a), mode)
  {
    hide After, Step, RunKey, Slot, Started, HasOpener, CallsOk, Balanced, CancelsOk;
    var t := Step(s, a);
    StepShape(s, a, mode);
    StepLog(s, a, mode);
    forall i | 0 <= i < |s.frames| { OpenerStays(acts, a, s.frames[i].serial, s.frames[i].key, mode); }
    forall i | 0 <= i < |s.log| && s.log[i].Called? { OpenerStays(acts, a, s.log[i].serial, s.log[i].key, mode); }
    if ShapeOf(s, a).Push? { PushOpener(acts, s, a, mode); }
    forall i | 0 <= i < |t.log| && t.log[i].Called?
      ensures HasOpener(acts + [a], t.log[i].serial, t.log[i].key, mode)
    {
      if i < |s.log| { assert t.log[i] == s.log[i]; }
    }
  }

  lemma PushOpener(acts: seq<Action>, s: State, a: Action, mode: Mode)
    requires After(Empty, acts, mode) == Some(s) && Inv(s, mode) && Allowed(s, a, mode) && ShapeOf(s, a).Push?
    ensures HasOpener(acts + [a], ShapeOf(s, a).f.serial, ShapeOf(s, a).f.key, mode)
  {
    hide RunKey, Slot, Iso, ScheduledFor, CallsOk, Balanced, CancelsOk;
    StepShape(s, a, mode);
    assert Permitted(s, a.id, a.now, a.approved);
    hide After, Permitted;
    assert (acts + [a])[..|acts|] == acts;
    assert OpenedBy(acts + [a], |acts|, ShapeOf(s, a).f.serial, ShapeOf(s, a).f.key, mode);
  }

  lemma {:induction false} RunOpened(acts: seq<Action>, mode: Mode)
    requires After(Empty, acts, mode).Some?
    ensures AllOpened(acts, After(Empty, acts, mode).value, mode)
    decreases |acts|
  {
    hide Step, Inv, AllOpened;
    EmptyInv(mode);
    if acts == [] {
      EmptyOpened(mode);
    } else {
      var front, a := acts[..|acts| - 1], acts[|acts| - 1];
      RunOpened(front, mode);
      RunInv(Empty, front, mode);
      StepOpened(front, After(Empty, front, mode).value, a, mode);
      assert front + [a] == acts;
    }
  }

  lemma EmptyOpened(mode: Mode)
    ensures AllOpened([], Empty, mode)
  {}

  /** In every run, re-entrant or not, every executor call belongs to a trigger that was permitted when it was
      made: of a schedule registered, not paused and before its expiry then, which only reads or was approved. */
  lemma CallsArePermitted(acts: seq<Action>, mode: Mode, i: nat) returns (k: nat)
    requires After(Empty, acts, mode).Some? && i < |After(Empty, acts, mode).value.log| && After(Empty, acts, mode).value.log[i].Called?
    ensures k < |acts| && acts[k].Trigger? && After(Empty, acts[..k], mode).Some?
    ensures var call, u, a := After(Empty, acts, mode).value.log[i], After(Empty, acts[..k], mode).value, acts[k];
            && a.id in u.defs && a.id !in u.paused
            && (u.defs[a.id].permissionsMode == "read_only" || a.approved)
            && (u.defs[a.id].expiresAt.Some? ==> a.now < u.defs[a.id].expiresAt.value)
            && Due(u.defs[a.id], a.now) && call.key == RunKey(a.id, Slot(u.defs[a.id], a.now)) && call.serial == u.serial
  {
    hide After, RunKey, Slot;
    RunOpened(acts, mode);
    var call := After(Empty, acts, mode).value.log[i];
    assert HasOpener(acts, call.serial, call.key, mode);
    k :| OpenedBy(acts, k, call.serial, call.key, mode);
  }

  /** From an admissible cancellation on, whatever happens, the executor is never called for the key again. */
  lemma {:induction false} CancelLasts(s: State, key: string, acts: seq<Action>, mode: Mode)
    requires Reachable(s, mode) && 0 < |key| <= 256 && After(Step(s, Cancel(key)), acts, mode).Some?
    ensures var t := After(Step(s, Cancel(key)), acts, mode).value; Calls(t.log, key) == Calls(s.log, key) && key in t.cancelled
    decreases |acts|
  {
    hide Step, Inv;
    ReachableInv(s, mode);
    StepInv(s, Cancel(key), mode);
    if acts == [] {
      CancelIsLogged(s, key);
    } else {
      var front, a := acts[..|acts| - 1], acts[|acts| - 1];
      CancelLasts(s, key, front, mode);
      RunInv(Step(s, Cancel(key)), front, mode);
      CancelledStep(After(Step(s, Cancel(key)), front, mode).value, a, key, mode);
    }
  }

  lemma CancelIsLogged(s: State, key: string)
    requires 0 < |key| <= 256
    ensures var t := Step(s, Cancel(key)); Calls(t.log, key) == Calls(s.log, key) && key in t.cancelled
  {
    CallsAppend(s.log, CancelSignal(key), key);
  }

  lemma CancelledStep(s: State, a: Action, key: string, mode: Mode)
    requires Inv(s, mode) && Allowed(s, a, mode) && key in s.cancelled
    ensures Calls(Step(s, a).log, key) == Calls(s.log, key) && key in Step(s, a).cancelled
  {
    hide Step, CallsOk, Balanced, FramesOk, CancelsOk;
    StepLog(s, a, mode);
    var t := Step(s, a);
    if t.log != s.log {
      assert t.log == s.log + [t.log[|s.log|]];
      CallsAppend(s.log, t.log[|s.log|], key);
    }
  }

  /** After a pause of a registered schedule no trigger of it is permitted, and after a resume exactly those are
      that were permitted if it had never been paused. */
  lemma PauseStops(s: State, id: string, now: Instant, approved: bool)
    requires InCaller(s) && id in s.defs
    ensures !Permitted(Step(s, Pause(id)), id, now, approved)
    ensures Permitted(Step(s, Resume(id)), id, now, approved) <==> Permitted(s.(paused := {}), id, now, approved)
    ensures forall other :: other != id ==>
              && (Permitted(Step(s, Pause(id)), other, now, approved) <==> Permitted(s, other, now, approved))
              && (Permitted(Step(s, Resume(id)), other, now, approved) <==> Permitted(s, other, now, approved))
  {
    hide Due;
  }

  /** Which definitions a registration takes, and that it then replaces whatever had the id. */
  lemma RegisteredIff(s: State, d: Definition)
    requires InCaller(s)
    ensures var t := Step(s, Register(d));
            var taken := && (d.id in s.defs ==> s.defs[d.id].version == d.version)
                         && d.maxConcurrency >= 1 && d.retryLimit >= 0
                         && (d.notifyOnlyIf == "always" || d.notifyOnlyIf == "finding_or_failure" || d.notifyOnlyIf == "failure")
                         && (d.notifyChannel.Some? ==> 1 <= |Strip(d.notifyChannel.value)| && |d.notifyChannel.value| <= 64)
                         && (d.scheduleType == "cron" && d.expression.Some? ==> Parsed(d.expression.value).Ok?);
            t == s.(defs := if taken then s.defs[d.id := d] else s.defs)
  {
    hide Parsed;
  }

  // ---------------------------------------------------------------- what changes a record

  /** While a frame is open and executors do not re-enter, its key has no record. */
  predicate FreshWhileOpen(s: State) {
    forall i :: 0 <= i < |s.frames| ==> s.frames[i].key !in s.history
  }

  lemma StepFresh(s: State, a: Action)
    requires Inv(s, Flat) && FreshWhileOpen(s) && Allowed(s, a, Flat)
    ensures FreshWhileOpen(Step(s, a))
  {
    hide Step, RunKey, CallsOk, Balanced, CancelsOk, Started, Due, Slot;
    StepShape(s, a, Flat);
    if a.Trigger? {
      StartedKeepsFresh(s, a);
    } else if s.frames != [] {
      assert FrameOk(Top(s), s.serial);
      if !ShapeOf(s, a).Pop? { StepKeepsHistory(s, a); }
    }
  }

  lemma StartedKeepsFresh(s: State, a: Action)
    requires Inv(s, Flat) && a.Trigger? && Allowed(s, a, Flat)
    ensures FreshWhileOpen(Step(s, a))
  {
    hide RunKey, CallsOk, Balanced, CancelsOk, Due, Slot, Recorded;
  }

  lemma StepKeepsHistory(s: State, a: Action)
    requires Enabled(s, a) && !a.Trigger? && !ShapeOf(s, a).Pop?
    ensures Step(s, a).history == s.history
  {
    hide RunKey, Due, Slot, Started, ValidDefinition;
  }

  lemma {:induction false} RunFresh(acts: seq<Action>)
    requires After(Empty, acts, Flat).Some?
    ensures FreshWhileOpen(After(Empty, acts, Flat).value)
    decreases |acts|
  {
    hide Step, Inv, FreshWhileOpen;
    EmptyInv(Flat);
    if acts != [] {
      var before := acts[..|acts| - 1];
      RunFresh(before);
      RunInv(Empty, before, Flat);
      StepFresh(After(Empty, before, Flat).value, acts[|acts| - 1]);
    }
  }

  /** The step that may change a record: a trigger leaving early at the very instant of that slot. */
  predicate EarlyAt(s: State, a: Action, key: string) {
    && a.Trigger? && a.id in s.defs && key == RunKey(a.id, a.now)
    && EarlyExit(s, a.id, s.defs[a.id], a.now, a.approved).Some?
  }

  /** With executors that do not re-enter, a slot's record is changed by a later step exactly when that
      step is an early exit at the slot's own instant, and then it is replaced by the early exit's. */
  lemma RecordStays(s: State, a: Action, key: string)
    requires Reachable(s, Flat) && Allowed(s, a, Flat) && key in s.history
    ensures key in Step(s, a).history
    ensures !EarlyAt(s, a, key) ==> Step(s, a).history[key] == s.history[key]
    ensures EarlyAt(s, a, key) ==>
              var early := EarlyExit(s, a.id, s.defs[a.id], a.now, a.approved).value;
              Step(s, a).history[key] == Run(a.id, key, Iso(a.now), early.0, 0, early.1, false, None)
  {
    hide RunKey, Due, Slot, ValidDefinition, Iso, EarlyExit, After, CallsOk, Balanced, Released;
    ReachableInv(s, Flat);
    var acts :| After(Empty, acts, Flat) == Some(s);
    RunFresh(acts);
    if a.Trigger? && a.id in s.defs { assert s.defs[a.id].id == a.id; }
    if s.frames != [] { assert FrameOk(Top(s), s.serial); }
  }

  // ---------------------------------------------------------------- witnesses

  lemma AfterMore(acts: seq<Action>, s: State, a: Action, mode: Mode)
    requires After(Empty, acts, mode) == Some(s) && Allowed(s, a, mode)
    ensures After(Empty, acts + [a], mode) == Some(Step(s, a))
  {
    assert (acts + [a])[..|acts|] == acts;
  }

  lemma ReachMore(s: State, a: Action, mode: Mode)
    requires Reachable(s, mode) && Allowed(s, a, mode)
    ensures Reachable(Step(s, a), mode)
  {
    hide Step, After;
    var acts :| After(Empty, acts, mode) == Some(s);
    AfterMore(acts, s, a, mode);
  }

  lemma EmptyReachable(mode: Mode)
    ensures Reachable(Empty, mode)
  {
    assert After(Empty, [], mode) == Some(Empty);
  }

  /** An hourly schedule that allows `limit` runs at a time. */
  function Hourly(limit: int): Definition {
    Definition("report", "1", "agent", "interval", 0, None, None, Some(3600), 300, limit, 0, "read_only",
               None, None, false, None, None, "failure")
  }

  lemma HourlySlot(limit: int)
    ensures Due(Hourly(limit), EPOCH) && Slot(Hourly(limit), EPOCH) == EPOCH
  {
    assert WholeSeconds(0) == 0;
    assert IntervalSlot(EPOCH, 3600) == EPOCH;
  }

  /** A registered hourly schedule. */
  function Registered(limit: int): State {
    Empty.(defs := map[Hourly(limit).id := Hourly(limit)])
  }

  /** Its trigger at `EPOCH` has opened a frame, and then called the executor. */
  function Opened(limit: int): State {
    var d := Hourly(limit);
    Registered(limit).(active := map[d.id := 1], frames := [Frame(0, d, EPOCH, RunKey(d.id, EPOCH), 0, false, false)], serial := 1)
  }

  function Running(limit: int): State {
    var f := Opened(limit).frames[0];
    Opened(limit).(frames := [f.(attempts := 1, calling := true)], log := [Called(0, f.key, 0)])
  }

  lemma RegisterHourly(limit: int)
    requires limit > 0
    ensures Step(Empty, Register(Hourly(limit))) == Registered(limit)
  {
    hide Parsed;
  }

  lemma TriggerHourly(limit: int)
    requires limit > 0
    ensures Step(Registered(limit), Trigger(Hourly(limit).id, EPOCH, false, false)) == Opened(limit)
  {
    hide RunKey, Due, Slot, Parsed, ScheduledFor;
    HourlySlot(limit);
    HourlyIsDue(limit);
  }

  lemma HourlyIsDue(limit: int)
    ensures ScheduledFor(Hourly(limit), EPOCH) != Ok(None)
  {
    HourlySlot(limit);
  }

  lemma RunningReachable(limit: int, mode: Mode)
    requires limit > 0 && (mode.Single? ==> limit == 1)
    ensures Reachable(Running(limit), mode)
  {
    hide After, RunKey, Due, Slot, Started, ValidDefinition, Parsed;
    EmptyReachable(mode);
    RegisterHourly(limit);
    ReachMore(Empty, Register(Hourly(limit)), mode);
    TriggerHourly(limit);
    ReachMore(Registered(limit), Trigger(Hourly(limit).id, EPOCH, false, false), mode);
    ReachMore(Opened(limit), Attempt, mode);
    assert Step(Opened(limit), Attempt) == Running(limit);
  }

  /** Whatever number above one of runs a schedule allows at a time, it can execute one slot inside two
      triggers, when its executor calls back: the limit of one in `SlotRunsOnce` cannot be raised. */
  lemma ReentryRunsSlotTwice(limit: int) returns (s: State)
    requires limit > 1
    ensures Reachable(s, Any) && !OneTriggerPerKey(s.log)
    ensures s.defs == map[Hourly(limit).id := Hourly(limit)] && Hourly(limit).maxConcurrency == limit
  {
    hide After, RunKey, Due, Slot;
    var d := Hourly(limit);
    RunningReachable(limit, Any);
    HourlySlot(limit);
    var t := Step(Running(limit), Trigger(d.id, EPOCH, false, false));
    ReachMore(Running(limit), Trigger(d.id, EPOCH, false, false), Any);
    assert t.frames[|t.frames| - 1] == Frame(1, d, EPOCH, RunKey(d.id, EPOCH), 0, false, false);
    s := Step(t, Attempt);
    ReachMore(t, Attempt, Any);
    assert s.log == [Called(0, RunKey(d.id, EPOCH), 0), Called(1, RunKey(d.id, EPOCH), 0)];
    assert s.log[0].serial != s.log[1].serial;
  }

  /** The exception in `RecordStays` is real: a success is overwritten by a pause at the slot's instant. */
  lemma SuccessIsOverwritten() returns (s: State, a: Action, key: string)
    ensures Reachable(s, Flat) && Allowed(s, a, Flat)
    ensures key in s.history && s.history[key].status == Succeeded
    ensures key in Step(s, a).history && Step(s, a).history[key].status == Paused
  {
    hide After, RunKey, Due, Slot;
    var d := Hourly(1);
    key := RunKey(d.id, EPOCH);
    RunningReachable(1, Flat);
    ReachMore(Running(1), Return("done", NoSink), Flat);
    var t := Step(Running(1), Return("done", NoSink));
    assert t.frames == [];
    ReachMore(t, Pause(d.id), Flat);
    s := Step(t, Pause(d.id));
    a := Trigger(d.id, EPOCH, false, false);
  }
}
