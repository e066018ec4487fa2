/** Idempotent run execution: several replicas, each with request threads over its own caches, share one
    run table whose inserts are first-writer-wins. */
module Runs {
  import opened IsoTime
  import opened Models

  /** `runId` is a fresh identifier; `body` stands for the rest of the result. */
  datatype Result = Result(runId: nat, body: string)
  datatype StoredRun = StoredRun(result: Result, identity: Identity, key: Option<string>)

  // ---------------------------------------------------------------- the run table

  predicate SameSlot(row: StoredRun, identity: Identity, key: string) {
    row.identity == identity && row.key == Some(key)
  }

  /** `find_idempotent`. */
  function Find(rows: seq<StoredRun>, identity: Identity, key: string): (r: Option<StoredRun>) {
    if rows == [] then None
    else if SameSlot(rows[0], identity, key) then Some(rows[0])
    else Find(rows[1..], identity, key)
  }

  /** `get`: the row with this id, if every field of the identity matches. */
  function GetRow(rows: seq<StoredRun>, runId: nat, identity: Identity): (r: Option<StoredRun>) {
    if rows == [] then None
    else if rows[0].result.runId == runId && rows[0].identity == identity then Some(rows[0])
    else GetRow(rows[1..], runId, identity)
  }

  /** A key that takes part in idempotency: present and not empty. */
  predicate Keyed(key: Option<string>) {
    key.Some? && key.value != ""
  }

  /** The INSERT of `save`: `None` when a constraint raises. An empty key is not NULL, so it meets the
      uniqueness constraint without the ON CONFLICT clause. */
  function Inserted(rows: seq<StoredRun>, run: StoredRun): (r: Option<seq<StoredRun>>) {
    if exists i :: 0 <= i < |rows| && rows[i].result.runId == run.result.runId then None
    else if run.key.Some? && Find(rows, run.identity, run.key.value).Some? then
      if run.key.value != "" then Some(rows) else None
    else Some(rows + [run])
  }

  lemma {:induction false} FindIsFirst(rows: seq<StoredRun>, identity: Identity, key: string)
    ensures Find(rows, identity, key).None? <==> forall i :: 0 <= i < |rows| ==> !SameSlot(rows[i], identity, key)
    ensures Find(rows, identity, key).Some? ==> Find(rows, identity, key).value in rows && SameSlot(Find(rows, identity, key).value, identity, key)
  {
    if rows != [] { FindIsFirst(rows[1..], identity, key); }
  }

  /** Appending never changes what was found. */
  lemma {:induction false} FindKeeps(rows: seq<StoredRun>, row: StoredRun, identity: Identity, key: string)
    ensures Find(rows, identity, key).Some? ==> Find(rows + [row], identity, key) == Find(rows, identity, key)
    ensures Find(rows, identity, key).None? ==>
              Find(rows + [row], identity, key) == if SameSlot(row, identity, key) then Some(row) else None
  {
    if rows == [] {
      assert (rows + [row])[1..] == [];
    } else {
      FindKeeps(rows[1..], row, identity, key);
      assert (rows + [row])[1..] == rows[1..] + [row];
    }
  }

  // ---------------------------------------------------------------- replicas and their threads

  datatype Replica = Replica(runs: map<nat, StoredRun>, idempotency: map<(Identity, string), nat>)

  /** Where a request is inside `RunService.execute`. */
  datatype Thread =
    | Idle
    | CacheMissed(identity: Identity, key: Option<string>)     // store lookup next
    | Executing(identity: Identity, key: Option<string>)       // inside the runtime
    | Ran(run: StoredRun)                                      // INSERT next
    | Saved(run: StoredRun)                                    // lookup after the INSERT next
    | Settled(stored: StoredRun)                               // self.runs[...] = stored next
    | Cached(stored: StoredRun)                                // self.idempotency[...] = ... next
    | Raised

  /** Thread t runs in replica `home(t)`. */
  datatype System = System(home: nat -> nat)

  datatype Answer = Answer(replica: nat, identity: Identity, key: Option<string>, result: Result)

  datatype State = State(rows: seq<StoredRun>, replicas: map<nat, Replica>, threads: map<nat, Thread>, nextRun: nat, answers: seq<Answer>)

  const Initial := State([], map[], map[], 0, [])

  datatype Action =
    | Request(t: nat, identity: Identity, key: Option<string>)
    | Lookup(t: nat)
    | RuntimeReturns(t: nat, body: string)
    | Insert(t: nat)
    | LookupSaved(t: nat)
    | CacheRun(t: nat)
    | CacheKey(t: nat)
    | Read(replica: nat, runId: nat, identity: Identity)       // RunService.get
    | Fail(t: nat)                                             // an exception ends the request
    | Restart(replica: nat)                                    // a replica loses its caches

  function ReplicaAt(s: State, r: nat): Replica {
    if r in s.replicas then s.replicas[r] else Replica(map[], map[])
  }

  function At(s: State, t: nat): Thread {
    if t in s.threads then s.threads[t] else Idle
  }

  function Moved(s: State, t: nat, pc: Thread): State {
    s.(threads := s.threads[t := pc])
  }

  function WithReplica(s: State, r: nat, rep: Replica): State {
    s.(replicas := s.replicas[r := rep])
  }

  function Answered(s: State, t: nat, r: nat, identity: Identity, key: Option<string>, result: Result): State {
    Moved(s, t, Idle).(answers := s.answers + [Answer(r, identity, key, result)])
  }

  predicate Enabled(sys: System, s: State, a: Action) {
    match a
    case Request(t, _, _) => At(s, t).Idle?
    case Lookup(t) => At(s, t).CacheMissed?
    case RuntimeReturns(t, _) => At(s, t).Executing?
    case Insert(t) => At(s, t).Ran?
    case LookupSaved(t) => At(s, t).Saved?
    case CacheRun(t) => At(s, t).Settled?
    case CacheKey(t) => At(s, t).Cached?
    case Read(_, _, _) => true
    case Fail(t) => true
    // A process takes all its requests with it.
    case Restart(r) => forall t <- s.threads :: sys.home(t) == r ==> s.threads[t].Idle? || s.threads[t].Raised?
  }

  /** The cached result of a key, if the replica has it. */
  function CachedRun(rep: Replica, identity: Identity, key: string): Option<StoredRun> {
    if (identity, key) in rep.idempotency && rep.idempotency[(identity, key)] in rep.runs
    then Some(rep.runs[rep.idempotency[(identity, key)]]) else None
  }

  function Step(sys: System, s: State, a: Action): State
    requires Enabled(sys, s, a)
  {
    match a
    case Request(t, identity, key) =>
      var rep := ReplicaAt(s, sys.home(t));
      if !Keyed(key) then Moved(s, t, Executing(identity, key))
      else
        (match CachedRun(rep, identity, key.value)
         case Some(stored) => Answered(s, t, sys.home(t), identity, key, stored.result)
         case None => Moved(s, t, CacheMissed(identity, key)))
    case Lookup(t) =>
      var CacheMissed(identity, key) := At(s, t);
      (match if key.Some? then Find(s.rows, identity, key.value) else None
       case Some(row) => Moved(s, t, Settled(row))
       case None => Moved(s, t, Executing(identity, key)))
    case RuntimeReturns(t, body) =>
      var Executing(identity, key) := At(s, t);
      Moved(s, t, Ran(StoredRun(Result(s.nextRun, body), identity, key))).(nextRun := s.nextRun + 1)
    case Insert(t) =>
      var run := At(s, t).run;
      (match Inserted(s.rows, run)
       case None => Moved(s, t, Raised)
       case Some(rows) => Moved(s, t, if Keyed(run.key) then Saved(run) else Settled(run)).(rows := rows))
    case LookupSaved(t) =>
      var run := At(s, t).run;
      (match if run.key.Some? then Find(s.rows, run.identity, run.key.value) else None
       case Some(row) => Moved(s, t, Settled(row))
       case None => Moved(s, t, Settled(run)))
    case CacheRun(t) =>
      var stored := At(s, t).stored;
      var r := sys.home(t);
      var rep := ReplicaAt(s, r);
      var s' := WithReplica(s, r, rep.(runs := rep.runs[stored.result.runId := stored]));
      if Keyed(stored.key) then Moved(s', t, Cached(stored))
      else Answered(s', t, r, stored.identity, stored.key, stored.result)
    case CacheKey(t) =>
      var stored := At(s, t).stored;
      var r := sys.home(t);
      var rep := ReplicaAt(s, r);
      if !Keyed(stored.key) then s
      else
        Answered(WithReplica(s, r, rep.(idempotency := rep.idempotency[(stored.identity, stored.key.value) := stored.result.runId])),
                 t, r, stored.identity, stored.key, stored.result)
    case Read(r, runId, identity) =>
      var rep := ReplicaAt(s, r);
      if runId in rep.runs then s
      else
        (match GetRow(s.rows, runId, identity)
         case None => s
         case Some(row) => WithReplica(s, r, rep.(runs := rep.runs[runId := row])))
    case Fail(t) => Moved(s, t, Raised)
    case Restart(r) => WithReplica(s, r, Replica(map[], map[]))
  }

  function After(sys: System, s: State, acts: seq<Action>): Option<State> {
    if acts == [] then Some(s)
    else
      var before := After(sys, s, acts[..|acts| - 1]);
      var a := acts[|acts| - 1];
      if before.Some? && Enabled(sys, before.value, a) then Some(Step(sys, before.value, a)) else None
  }

  ghost predicate Reachable(sys: System, s: State) {
    exists acts :: After(sys, Initial, acts) == Some(s)
  }

  // ---------------------------------------------------------------- invariant

  predicate RowsOk(rows: seq<StoredRun>, nextRun: nat) {
    && (forall i :: 0 <= i < |rows| ==> rows[i].result.runId < nextRun)
    && (forall i, j :: 0 <= i < j < |rows| ==> rows[i].result.runId != rows[j].result.runId)
    && (forall i, j :: 0 <= i < j < |rows| && rows[i].key.Some? ==> !SameSlot(rows[j], rows[i].identity, rows[i].key.value))
  }

  /** `stored` is the row, and the only one, of its identity and key. */
  predicate IsRow(rows: seq<StoredRun>, stored: StoredRun) {
    && stored in rows
    && (Keyed(stored.key) ==> Find(rows, stored.identity, stored.key.value) == Some(stored))
  }

  predicate ReplicaOk(rows: seq<StoredRun>, rep: Replica) {
    && (forall id <- rep.runs :: rep.runs[id].result.runId == id && IsRow(rows, rep.runs[id]))
    && (forall k <- rep.idempotency ::
          && rep.idempotency[k] in rep.runs
          && SameSlot(rep.runs[rep.idempotency[k]], k.0, k.1) && k.1 != "")
  }

  predicate ThreadOk(s: State, rep: Replica, pc: Thread) {
    match pc
    case CacheMissed(_, key) => Keyed(key)
    case Ran(run) => run.result.runId < s.nextRun
    case Saved(run) => Keyed(run.key) && Find(s.rows, run.identity, run.key.value).Some?
    case Settled(stored) => IsRow(s.rows, stored)
    case Cached(stored) => Keyed(stored.key) && IsRow(s.rows, stored) && stored.result.runId in rep.runs && rep.runs[stored.result.runId] == stored
    case _ => true
  }

  predicate AnswerOk(rows: seq<StoredRun>, a: Answer) {
    && StoredRun(a.result, a.identity, a.key) in rows
    && (Keyed(a.key) ==> Find(rows, a.identity, a.key.value).Some? && Find(rows, a.identity, a.key.value).value.result == a.result)
  }

  predicate Inv(sys: System, s: State) {
    && RowsOk(s.rows, s.nextRun)
    && (forall r <- s.replicas :: ReplicaOk(s.rows, s.replicas[r]))
    && (forall t <- s.threads :: ThreadOk(s, ReplicaAt(s, sys.home(t)), s.threads[t]))
    && (forall i :: 0 <= i < |s.answers| ==> AnswerOk(s.rows, s.answers[i]))
  }

  // ---------------------------------------------------------------- preservation

  /** Rows with the same id are the same row. */
  lemma RowById(rows: seq<StoredRun>, nextRun: nat, x: StoredRun, y: StoredRun)
    requires RowsOk(rows, nextRun) && x in rows && y in rows && x.result.runId == y.result.runId
    ensures x == y
  {}

  lemma RowIsFound(rows: seq<StoredRun>, nextRun: nat, x: StoredRun)
    requires RowsOk(rows, nextRun) && x in rows
    ensures IsRow(rows, x)
  {
    if Keyed(x.key) {
      FindIsFirst(rows, x.identity, x.key.value);
      var y := Find(rows, x.identity, x.key.value).value;
      var i :| 0 <= i < |rows| && rows[i] == x;
      var j :| 0 <= j < |rows| && rows[j] == y;
    }
  }

  /** Whatever was found is still found. */
  ghost predicate Extends(rows: seq<StoredRun>, more: seq<StoredRun>) {
    && (forall x <- rows :: x in more)
    && (forall identity, key :: Find(rows, identity, key).Some? ==> Find(more, identity, key) == Find(rows, identity, key))
  }

  lemma InsertedExtends(rows: seq<StoredRun>, run: StoredRun)
    requires Inserted(rows, run).Some?
    ensures Extends(rows, Inserted(rows, run).value)
  {
    var more := Inserted(rows, run).value;
    forall identity, key
      ensures Find(rows, identity, key).Some? ==> Find(more, identity, key) == Find(rows, identity, key)
    {
      FindKeeps(rows, run, identity, key);
    }
  }

  lemma ExtendsRow(rows: seq<StoredRun>, more: seq<StoredRun>, x: StoredRun)
    requires Extends(rows, more) && IsRow(rows, x)
    ensures IsRow(more, x)
  {}

  lemma InsertedRows(rows: seq<StoredRun>, run: StoredRun, nextRun: nat)
    requires RowsOk(rows, nextRun) && Inserted(rows, run).Some? && run.result.runId < nextRun
    ensures var more := Inserted(rows, run).value;
            && RowsOk(more, nextRun)
            && (Keyed(run.key) ==> Find(more, run.identity, run.key.value).Some?)
            && (!Keyed(run.key) ==> IsRow(more, run))
  {
    var more := Inserted(rows, run).value;
    if run.key.Some? {
      FindIsFirst(rows, run.identity, run.key.value);
      FindKeeps(rows, run, run.identity, run.key.value);
    }
    if more != rows { assert more[|rows|] == run; }
  }

  lemma ReplicaExtends(rows: seq<StoredRun>, more: seq<StoredRun>, rep: Replica)
    requires Extends(rows, more) && ReplicaOk(rows, rep)
    ensures ReplicaOk(more, rep)
  {
    hide Extends, IsRow;
    forall id | id in rep.runs
      ensures IsRow(more, rep.runs[id])
    {
      ExtendsRow(rows, more, rep.runs[id]);
    }
  }

  lemma ThreadExtends(s: State, s': State, rep: Replica, pc: Thread)
    requires Extends(s.rows, s'.rows) && s'.nextRun == s.nextRun && ThreadOk(s, rep, pc)
    ensures ThreadOk(s', rep, pc)
  {
    match pc
    case Settled(stored) => ExtendsRow(s.rows, s'.rows, stored);
    case Cached(stored) => ExtendsRow(s.rows, s'.rows, stored);
    case _ =>
  }

  lemma AnswerExtends(rows: seq<StoredRun>, more: seq<StoredRun>, a: Answer)
    requires Extends(rows, more) && AnswerOk(rows, a)
    ensures AnswerOk(more, a)
  {}

  // ---------------------------------------------------------------- preservation, step by step

  lemma InsertInv(sys: System, s: State, t: nat)
    requires Inv(sys, s) && At(s, t).Ran?
    ensures Inv(sys, Step(sys, s, Insert(t)))
  {
    hide Find, Inserted, RowsOk, IsRow, Extends, ReplicaOk, AnswerOk;
    var run := At(s, t).run;
    var s' := Step(sys, s, Insert(t));
    assert ThreadOk(s, ReplicaAt(s, sys.home(t)), s.threads[t]);
    if Inserted(s.rows, run).Some? {
      InsertedRows(s.rows, run, s.nextRun);
      InsertedExtends(s.rows, run);
      forall u | u in s'.threads
        ensures ThreadOk(s', ReplicaAt(s', sys.home(u)), s'.threads[u])
      {
        if u != t { ThreadExtends(s, s', ReplicaAt(s, sys.home(u)), s.threads[u]); }
      }
      forall r | r in s'.replicas
        ensures ReplicaOk(s'.rows, s'.replicas[r])
      {
        ReplicaExtends(s.rows, s'.rows, s.replicas[r]);
      }
      forall i | 0 <= i < |s'.answers|
        ensures AnswerOk(s'.rows, s'.answers[i])
      {
        AnswerExtends(s.rows, s'.rows, s.answers[i]);
      }
    } else {
      ThreadStep(sys, s, s', t);
    }
  }

  /** A row enters a replica's cache: nothing cached under that id was different. */
  lemma CacheRowOk(rows: seq<StoredRun>, nextRun: nat, rep: Replica, row: StoredRun)
    requires RowsOk(rows, nextRun) && ReplicaOk(rows, rep) && IsRow(rows, row)
    ensures ReplicaOk(rows, rep.(runs := rep.runs[row.result.runId := row]))
    ensures row.result.runId in rep.runs ==> rep.runs[row.result.runId] == row
  {
    hide Find;
    if row.result.runId in rep.runs { RowById(rows, nextRun, row, rep.runs[row.result.runId]); }
  }

  lemma {:induction false} GetRowIsRow(rows: seq<StoredRun>, runId: nat, identity: Identity)
    ensures GetRow(rows, runId, identity).Some? ==>
              var row := GetRow(rows, runId, identity).value;
              row in rows && row.result.runId == runId && row.identity == identity
  {
    if rows != [] { GetRowIsRow(rows[1..], runId, identity); }
  }

  /** A replica's caches changed without losing a run that they had. */
  lemma ReplicaStep(sys: System, s: State, s': State, r: nat)
    requires Inv(sys, s)
    requires s'.rows == s.rows && s'.nextRun == s.nextRun && s'.threads == s.threads && s'.answers == s.answers
    requires s'.replicas == s.replicas[r := ReplicaAt(s', r)] && ReplicaOk(s.rows, ReplicaAt(s', r))
    requires forall id <- ReplicaAt(s, r).runs :: id in ReplicaAt(s', r).runs && ReplicaAt(s', r).runs[id] == ReplicaAt(s, r).runs[id]
    ensures Inv(sys, s')
  {
    hide Find, RowsOk, IsRow;
    forall u | u in s'.threads
      ensures ThreadOk(s', ReplicaAt(s', sys.home(u)), s'.threads[u])
    {
      assert ThreadOk(s, ReplicaAt(s, sys.home(u)), s.threads[u]);
    }
  }

  /** One thread moves, and perhaps answers. */
  lemma ThreadStep(sys: System, s: State, s': State, t: nat)
    requires Inv(sys, s)
    requires s'.rows == s.rows && s'.nextRun >= s.nextRun && s'.replicas == s.replicas
    requires RowsOk(s.rows, s'.nextRun)
    requires s'.threads == s.threads[t := At(s', t)] && ThreadOk(s', ReplicaAt(s', sys.home(t)), At(s', t))
    requires s'.answers == s.answers || (|s'.answers| == |s.answers| + 1 && s'.answers[..|s.answers|] == s.answers && AnswerOk(s.rows, s'.answers[|s.answers|]))
    ensures Inv(sys, s')
  {
    hide Find, RowsOk, IsRow;
    forall u | u in s'.threads
      ensures ThreadOk(s', ReplicaAt(s', sys.home(u)), s'.threads[u])
    {
      if u != t { assert ThreadOk(s, ReplicaAt(s, sys.home(u)), s.threads[u]); }
    }
    forall i | 0 <= i < |s'.answers|
      ensures AnswerOk(s'.rows, s'.answers[i])
    {
      if i < |s.answers| { assert s'.answers[..|s.answers|][i] == s.answers[i]; }
    }
  }

  lemma CacheRunInv(sys: System, s: State, t: nat)
    requires Inv(sys, s) && At(s, t).Settled?
    ensures Inv(sys, Step(sys, s, CacheRun(t)))
  {
    hide Find, RowsOk;
    var stored := At(s, t).stored;
    var r := sys.home(t);
    var rep := ReplicaAt(s, r);
    assert ThreadOk(s, rep, s.threads[t]);
    assert stored in s.rows;
    hide IsRow;
    var mid := WithReplica(s, r, rep.(runs := rep.runs[stored.result.runId := stored]));
    CacheRowOk(s.rows, s.nextRun, rep, stored);
    ReplicaStep(sys, s, mid, r);
    ThreadStep(sys, mid, Step(sys, s, CacheRun(t)), t);
  }

  lemma CacheKeyInv(sys: System, s: State, t: nat)
    requires Inv(sys, s) && At(s, t).Cached?
    ensures Inv(sys, Step(sys, s, CacheKey(t)))
  {
    hide Find, RowsOk;
    var stored := At(s, t).stored;
    var r := sys.home(t);
    var rep := ReplicaAt(s, r);
    assert ThreadOk(s, rep, s.threads[t]);
    var mid := WithReplica(s, r, rep.(idempotency := rep.idempotency[(stored.identity, stored.key.value) := stored.result.runId]));
    ReplicaStep(sys, s, mid, r);
    ThreadStep(sys, mid, Step(sys, s, CacheKey(t)), t);
  }

  lemma ReadInv(sys: System, s: State, r: nat, runId: nat, identity: Identity)
    requires Inv(sys, s)
    ensures Inv(sys, Step(sys, s, Read(r, runId, identity)))
  {
    hide Find, RowsOk, IsRow;
    var rep := ReplicaAt(s, r);
    var row := GetRow(s.rows, runId, identity);
    if runId !in rep.runs && row.Some? {
      GetRowIsRow(s.rows, runId, identity);
      RowIsFound(s.rows, s.nextRun, row.value);
      CacheRowOk(s.rows, s.nextRun, rep, row.value);
      ReplicaStep(sys, s, Step(sys, s, Read(r, runId, identity)), r);
    }
  }

  lemma RestartInv(sys: System, s: State, r: nat)
    requires Inv(sys, s) && Enabled(sys, s, Restart(r))
    ensures Inv(sys, Step(sys, s, Restart(r)))
  {
    hide Find, RowsOk, IsRow;
    var s' := Step(sys, s, Restart(r));
    forall u | u in s'.threads
      ensures ThreadOk(s', ReplicaAt(s', sys.home(u)), s'.threads[u])
    {
      assert ThreadOk(s, ReplicaAt(s, sys.home(u)), s.threads[u]);
    }
  }

  lemma LookupInv(sys: System, s: State, t: nat, identity: Identity, key: Option<string>)
    requires Inv(sys, s) && (At(s, t) == CacheMissed(identity, key) || (At(s, t).Saved? && At(s, t).run.identity == identity && At(s, t).run.key == key))
    ensures Inv(sys, Step(sys, s, if At(s, t).Saved? then LookupSaved(t) else Lookup(t)))
  {
    assert ThreadOk(s, ReplicaAt(s, sys.home(t)), s.threads[t]);
    FindIsFirst(s.rows, identity, key.value);
    var row := Find(s.rows, identity, key.value);
    if row.Some? { RowIsFound(s.rows, s.nextRun, row.value); }
    hide Find, RowsOk, IsRow;
    ThreadStep(sys, s, Step(sys, s, if At(s, t).Saved? then LookupSaved(t) else Lookup(t)), t);
  }

  lemma RequestInv(sys: System, s: State, t: nat, identity: Identity, key: Option<string>)
    requires Inv(sys, s) && At(s, t).Idle?
    ensures Inv(sys, Step(sys, s, Request(t, identity, key)))
  {
    hide Find, RowsOk;
    var rep := ReplicaAt(s, sys.home(t));
    assert ReplicaOk(s.rows, rep);
    ThreadStep(sys, s, Step(sys, s, Request(t, identity, key)), t);
  }

  lemma MoreRunIds(rows: seq<StoredRun>, n: nat, m: nat)
    requires RowsOk(rows, n) && n <= m
    ensures RowsOk(rows, m)
  {}

  lemma StepInv(sys: System, s: State, a: Action)
    requires Inv(sys, s) && Enabled(sys, s, a)
    ensures Inv(sys, Step(sys, s, a))
  {
    hide Find, RowsOk, IsRow, ReplicaOk, AnswerOk;
    match a
    case Request(t, identity, key) => RequestInv(sys, s, t, identity, key);
    case Lookup(t) => LookupInv(sys, s, t, At(s, t).identity, At(s, t).key);
    case RuntimeReturns(t, body) =>
      MoreRunIds(s.rows, s.nextRun, s.nextRun + 1);
      ThreadStep(sys, s, Step(sys, s, a), t);
    case Insert(t) => InsertInv(sys, s, t);
    case LookupSaved(t) => LookupInv(sys, s, t, At(s, t).run.identity, At(s, t).run.key);
    case CacheRun(t) => CacheRunInv(sys, s, t);
    case CacheKey(t) => CacheKeyInv(sys, s, t);
    case Read(r, runId, identity) => ReadInv(sys, s, r, runId, identity);
    case Fail(t) => ThreadStep(sys, s, Step(sys, s, a), t);
    case Restart(r) => RestartInv(sys, s, r);
  }

  lemma {:induction false} RunInv(sys: System, s: State, acts: seq<Action>)
    requires Inv(sys, s) && After(sys, s, acts).Some?
    ensures Inv(sys, After(sys, s, acts).value)
    decreases |acts|
  {
    hide Step, Enabled, Inv;
    if acts != [] {
      RunInv(sys, s, acts[..|acts| - 1]);
      StepInv(sys, After(sys, s, acts[..|acts| - 1]).value, acts[|acts| - 1]);
    }
  }

  lemma ReachableInv(sys: System, s: State)
    requires Reachable(sys, s)
    ensures Inv(sys, s)
  {
    hide Step, Enabled;
    var acts :| After(sys, Initial, acts) == Some(s);
    assert Inv(sys, Initial);
    RunInv(sys, Initial, acts);
  }

  // ---------------------------------------------------------------- theorems

  /** For one identity and non-empty key, every request on every replica is answered with the same
      result, however many runtimes raced, and that result is the one in the table. */
  lemma ReplicasAgree(sys: System, s: State, i: nat, j: nat)
    requires Reachable(sys, s) && i < |s.answers| && j < |s.answers|
    requires s.answers[i].key.Some? && s.answers[i].key != Some("")
    requires s.answers[j].key == s.answers[i].key && s.answers[j].identity == s.answers[i].identity
    ensures s.answers[i].result == s.answers[j].result
    ensures StoredRun(s.answers[i].result, s.answers[i].identity, s.answers[i].key) in s.rows
  {
    hide Step, Enabled;
    ReachableInv(sys, s);
    assert AnswerOk(s.rows, s.answers[i]) && AnswerOk(s.rows, s.answers[j]);
  }

  /** And no run ever answers for two identities or two keys. */
  lemma AnswersApart(sys: System, s: State, i: nat, j: nat)
    requires Reachable(sys, s) && i < |s.answers| && j < |s.answers| && s.answers[i].result.runId == s.answers[j].result.runId
    ensures s.answers[i].identity == s.answers[j].identity && s.answers[i].key == s.answers[j].key && s.answers[i].result == s.answers[j].result
  {
    hide Step, Enabled;
    ReachableInv(sys, s);
    var a, b := s.answers[i], s.answers[j];
    assert AnswerOk(s.rows, a) && AnswerOk(s.rows, b);
    RowById(s.rows, s.nextRun, StoredRun(a.result, a.identity, a.key), StoredRun(b.result, b.identity, b.key));
  }

  /** Every cached idempotency entry of every replica points to a cached run equal to the stored row. */
  lemma CachesMatchRows(sys: System, s: State, r: nat, identity: Identity, key: string)
    requires Reachable(sys, s) && (identity, key) in ReplicaAt(s, r).idempotency
    ensures CachedRun(ReplicaAt(s, r), identity, key).Some?
    ensures Find(s.rows, identity, key) == CachedRun(ReplicaAt(s, r), identity, key)
  {
    hide Step, Enabled;
    ReachableInv(sys, s);
    assert ReplicaOk(s.rows, ReplicaAt(s, r));
  }

  /** The table keeps one row per identity and key, for ever: the first one saved. */
  lemma FirstRowStays(sys: System, s: State, a: Action, identity: Identity, key: string)
    requires Reachable(sys, s) && Enabled(sys, s, a) && Find(s.rows, identity, key).Some?
    ensures Find(Step(sys, s, a).rows, identity, key) == Find(s.rows, identity, key)
  {
    hide Inv;
    if a.Insert? { FindKeeps(s.rows, At(s, a.t).run, identity, key); }
  }

  predicate SameScope(a: Identity, b: Identity) {
    a.workspaceId == b.workspaceId && a.tenantId == b.tenantId && a.userId == b.userId
  }

  /** The answer of `RunService.get`, which compares the role only when the run is not cached yet. */
  function ReadAnswer(s: State, r: nat, runId: nat, identity: Identity): Option<StoredRun> {
    var rep := ReplicaAt(s, r);
    var found := if runId in rep.runs then Some(rep.runs[runId]) else GetRow(s.rows, runId, identity);
    if found.Some? && SameScope(found.value.identity, identity) then found else None
  }

  /** A read returns the stored row with that id or nothing, never a run of another user, tenant or
      workspace; whenever it finds nothing although the caller's own run is stored, the ids differ. */
  lemma ReadIsScoped(sys: System, s: State, r: nat, runId: nat, identity: Identity)
    requires Reachable(sys, s)
    ensures var a := ReadAnswer(s, r, runId, identity);
            a.Some? ==> a.value in s.rows && a.value.result.runId == runId && a.value.identity.userId == identity.userId
                        && a.value.identity.workspaceId == identity.workspaceId && a.value.identity.tenantId == identity.tenantId
    ensures ReadAnswer(s, r, runId, identity).None? ==>
              forall row <- s.rows :: !(row.result.runId == runId && row.identity == identity)
  {
    hide Step, Enabled, Find;
    ReachableInv(sys, s);
    GetRowIsRow(s.rows, runId, identity);
    GetRowComplete(s.rows, runId, identity);
    var rep := ReplicaAt(s, r);
    assert ReplicaOk(s.rows, rep);
    if runId in rep.runs {
      assert IsRow(s.rows, rep.runs[runId]);
      forall row | row in s.rows && row.result.runId == runId
        ensures row == rep.runs[runId]
      {
        RowById(s.rows, s.nextRun, row, rep.runs[runId]);
      }
    }
  }

  /** A caller in a run's scope reads it iff the caller's role is that of the run, or the replica has it cached. */
  lemma RoleComparedIff(sys: System, s: State, r: nat, row: StoredRun, identity: Identity)
    requires Reachable(sys, s) && row in s.rows && SameScope(row.identity, identity)
    ensures ReadAnswer(s, r, row.result.runId, identity).Some? <==>
              row.identity == identity || row.result.runId in ReplicaAt(s, r).runs
  {
    hide Step, Enabled, Find;
    ReachableInv(sys, s);
    var runId := row.result.runId;
    var rep := ReplicaAt(s, r);
    assert ReplicaOk(s.rows, rep);
    if runId in rep.runs {
      assert IsRow(s.rows, rep.runs[runId]);
      RowById(s.rows, s.nextRun, row, rep.runs[runId]);
    } else {
      GetRowComplete(s.rows, runId, identity);
      GetRowIsRow(s.rows, runId, identity);
      var found := GetRow(s.rows, runId, identity);
      if found.Some? { RowById(s.rows, s.nextRun, row, found.value); }
    }
  }

  lemma ReachMore(sys: System, s: State, a: Action)
    requires Reachable(sys, s) && Enabled(sys, s, a)
    ensures Reachable(sys, Step(sys, s, a))
  {
    hide Step, Enabled;
    var acts :| After(sys, Initial, acts) == Some(s);
    assert (acts + [a])[..|acts|] == acts;
    assert After(sys, Initial, acts + [a]) == Some(Step(sys, s, a));
  }

  lemma InitialReachable(sys: System)
    ensures Reachable(sys, Initial)
  {
    assert After(sys, Initial, []) == Some(Initial);
  }

  /** Any two roles in one scope: the replica that ran a request serves its run to the other role, which every
      other replica refuses. */
  lemma OtherRoleReads(sys: System, owner: Identity, other: Identity, body: string, r: nat) returns (s: State)
    requires SameScope(owner, other) && owner.role != other.role && r != sys.home(0)
    ensures Reachable(sys, s) && s.rows == [StoredRun(Result(0, body), owner, None)]
    ensures ReadAnswer(s, sys.home(0), 0, other) == Some(s.rows[0])
    ensures ReadAnswer(s, r, 0, other).None?
  {
    hide Reachable;
    InitialReachable(sys);
    ReachMore(sys, Initial, Request(0, owner, None));
    var s1 := Step(sys, Initial, Request(0, owner, None));
    ReachMore(sys, s1, RuntimeReturns(0, body));
    var s2 := Step(sys, s1, RuntimeReturns(0, body));
    ReachMore(sys, s2, Insert(0));
    var s3 := Step(sys, s2, Insert(0));
    assert s3.rows == [StoredRun(Result(0, body), owner, None)];
    ReachMore(sys, s3, CacheRun(0));
    s := Step(sys, s3, CacheRun(0));
    assert s.rows[0].identity != other && GetRow(s.rows[1..], 0, other).None?;
    assert r !in s.replicas;
  }

  lemma {:induction false} GetRowComplete(rows: seq<StoredRun>, runId: nat, identity: Identity)
    ensures GetRow(rows, runId, identity).None? ==> forall row <- rows :: !(row.result.runId == runId && row.identity == identity)
  {
    if rows != [] { GetRowComplete(rows[1..], runId, identity); }
  }
}
