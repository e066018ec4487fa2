/** The run service object of one replica, over a run table that other replicas write to between any two
    of its calls. */
module RunService {
  import opened IsoTime
  import opened Models
  import opened Runs

  /** The shared table. Only inserts change it, so that whatever a lookup found stays found. */
  class RunTable {
    var rows: seq<StoredRun>
    /** Every run id drawn so far is below it. */
    var nextRun: nat

    ghost predicate Valid()
      reads this
    {
      RowsOk(rows, nextRun)
    }

    constructor ()
      ensures Valid() && rows == []
    {
      rows := [];
      nextRun := 0;
    }

    /** Anything the other replicas may do: their inserts keep the table's rules. */
    method Others()
      requires Valid()
      modifies this
      ensures Valid() && Extends(old(rows), rows) && nextRun >= old(nextRun)
      ensures forall row <- rows :: row in old(rows) || row.result.runId >= old(nextRun)
    {
    }

    /** A new run id: no row has it, and no other replica will draw it. */
    method Draw() returns (runId: nat)
      requires Valid()
      modifies this`nextRun
      ensures Valid() && runId == old(nextRun) && nextRun == runId + 1
      ensures forall row <- rows :: row.result.runId != runId
    {
      runId := nextRun;
      nextRun := nextRun + 1;
    }

    /** `PostgresRunStore.save` up to its commit; false when a constraint raises. */
    method Insert(run: StoredRun) returns (ok: bool)
      requires Valid() && run.result.runId < nextRun
      modifies this`rows
      ensures Valid() && Extends(old(rows), rows)
      ensures ok <==> Inserted(old(rows), run).Some?
      ensures rows == if ok then Inserted(old(rows), run).value else old(rows)
    {
      var more := Inserted(rows, run);
      ok := more.Some?;
      if ok {
        InsertedRows(rows, run, nextRun);
        InsertedExtends(rows, run);
        rows := more.value;
      }
    }
  }

  class RunService {
    const table: RunTable
    var runs: map<nat, StoredRun>
    var idempotency: map<(Identity, string), nat>

    ghost predicate Valid()
      reads this, table
    {
      table.Valid() && ReplicaOk(table.rows, Replica(runs, idempotency))
    }

    constructor (table: RunTable)
      requires table.Valid()
      ensures Valid() && this.table == table
    {
      this.table := table;
      runs, idempotency := map[], map[];
    }

    /** Other replicas run; this one's caches stay true of the table. */
    method Interleave()
      requires Valid()
      modifies table
      ensures Valid() && Extends(old(table.rows), table.rows) && table.nextRun >= old(table.nextRun)
      ensures forall row <- table.rows :: row in old(table.rows) || row.result.runId >= old(table.nextRun)
    {
      hide ReplicaOk, Extends;
      ghost var before := table.rows;
      table.Others();
      ReplicaExtends(before, table.rows, Replica(runs, idempotency));
    }

    /** The last two statements of `execute`. */
    method Cache(stored: StoredRun)
      requires Valid() && IsRow(table.rows, stored)
      modifies this
      ensures Valid()
      ensures Keyed(stored.key) ==> CachedRun(Replica(runs, idempotency), stored.identity, stored.key.value) == Some(stored)
    {
      CacheRowOk(table.rows, table.nextRun, Replica(runs, idempotency), stored);
      runs := runs[stored.result.runId := stored];
      if Keyed(stored.key) {
        idempotency := idempotency[(stored.identity, stored.key.value) := stored.result.runId];
      }
    }

    /** `execute`; `body` is what the runtime would produce. A keyed request is answered with the result of
        the table's row for its key, which then also is the cached one, and whatever was found before is
        still in the table. `None` is an exception, which only an empty key raises, if it was used before the
        insert, and surely if it was used before the call. */
    method Execute(identity: Identity, key: Option<string>, body: string) returns (r: Option<Result>)
      requires Valid()
      modifies this, table
      ensures Valid() && Extends(old(table.rows), table.rows)
      ensures r.Some? && Keyed(key) ==>
                var row := Find(table.rows, identity, key.value);
                && row.Some? && row.value.result == r.value
                && CachedRun(Replica(runs, idempotency), identity, key.value) == row
      ensures r.Some? ==> StoredRun(r.value, identity, key) in table.rows
      ensures Keyed(key) && Find(old(table.rows), identity, key.value).Some? ==> r == Some(Find(old(table.rows), identity, key.value).value.result)
      ensures r.Some? && !Keyed(key) ==> r.value.body == body
      ensures r.Some? && !Keyed(key) ==> StoredRun(r.value, identity, key) !in old(table.rows)
      ensures r.None? ==> key == Some("") && Find(table.rows, identity, "").Some?
      ensures key == Some("") && Find(old(table.rows), identity, "").Some? ==> r.None?
    {
      hide Find, Inserted, RowsOk, ReplicaOk, Extends;
      ghost var start := table.rows;
      ExtendsItself(start);
      if Keyed(key) {
        CachedIsFound(table.rows, Replica(runs, idempotency), identity, key.value);
        var cached := CachedRun(Replica(runs, idempotency), identity, key.value);
        if cached.Some? {
          FoundIsRow(table.rows, table.nextRun, identity, key.value);
          return Some(cached.value.result);
        }
        Interleave();
        FoundStays(start, table.rows, identity, key.value);
        var found := Find(table.rows, identity, key.value);
        if found.Some? {
          FoundIsRow(table.rows, table.nextRun, identity, key.value);
          Cache(found.value);
          return Some(found.value.result);
        }
      }
      ghost var looked := table.rows;
      Interleave();
      ExtendsMore(start, looked, table.rows);
      var runId := table.Draw();
      ghost var drawn := table.rows;
      NewId(start, drawn, runId);
      Interleave();
      ExtendsMore(start, drawn, table.rows);
      var run := StoredRun(Result(runId, body), identity, key);
      r := Save(run, start);
    }

    /** The end of `execute`: save the run, and answer with what the table then has. */
    method Save(run: StoredRun, ghost start: seq<StoredRun>) returns (r: Option<Result>)
      requires Valid() && run.result.runId < table.nextRun && Extends(start, table.rows)
      requires forall row <- table.rows :: row.result.runId != run.result.runId
      modifies this, table
      ensures Valid() && Extends(start, table.rows)
      ensures r.Some? && Keyed(run.key) ==>
                var row := Find(table.rows, run.identity, run.key.value);
                && row.Some? && row.value.result == r.value
                && CachedRun(Replica(runs, idempotency), run.identity, run.key.value) == row
      ensures r.Some? ==> StoredRun(r.value, run.identity, run.key) in table.rows
      ensures r.Some? && !Keyed(run.key) ==> r.value == run.result
      ensures r.None? <==> run.key == Some("") && Find(old(table.rows), run.identity, "").Some?
      ensures r.None? ==> Find(table.rows, run.identity, "").Some?
      ensures run.key == Some("") && Find(start, run.identity, "").Some? ==> r.None?
    {
      hide Find, Inserted, RowsOk, ReplicaOk, Extends;
      ghost var before := table.rows;
      InsertRaises(before, run);
      FoundStays(start, before, run.identity, "");
      var ok := table.Insert(run);
      ExtendsMore(start, before, table.rows);
      ReplicaExtends(before, table.rows, Replica(runs, idempotency));
      if !ok {
        return None;
      }
      InsertedRows(before, run, table.nextRun);
      var stored := run;
      if Keyed(run.key) {
        ghost var inserted := table.rows;
        Interleave();
        ExtendsMore(start, inserted, table.rows);
        FoundStays(inserted, table.rows, run.identity, run.key.value);
        stored := Find(table.rows, run.identity, run.key.value).value;
        FoundIsRow(table.rows, table.nextRun, run.identity, run.key.value);
      }
      Cache(stored);
      return Some(stored.result);
    }
  }

  lemma ExtendsItself(rows: seq<StoredRun>)
    ensures Extends(rows, rows)
  {}

  lemma ExtendsMore(a: seq<StoredRun>, b: seq<StoredRun>, c: seq<StoredRun>)
    requires Extends(a, b) && Extends(b, c)
    ensures Extends(a, c)
  {
    hide Find;
  }

  lemma NewId(rows: seq<StoredRun>, more: seq<StoredRun>, runId: nat)
    requires Extends(rows, more) && forall row <- more :: row.result.runId != runId
    ensures forall row <- rows :: row.result.runId != runId
  {}

  lemma FoundStays(rows: seq<StoredRun>, more: seq<StoredRun>, identity: Identity, key: string)
    requires Extends(rows, more)
    ensures Find(rows, identity, key).Some? ==> Find(more, identity, key) == Find(rows, identity, key)
  {}

  /** With a new run id, only a second row with an empty key is refused. */
  lemma InsertRaises(rows: seq<StoredRun>, run: StoredRun)
    requires forall row <- rows :: row.result.runId != run.result.runId
    ensures Inserted(rows, run).None? <==> run.key == Some("") && Find(rows, run.identity, "").Some?
  {
    hide Find;
  }

  lemma CachedIsFound(rows: seq<StoredRun>, rep: Replica, identity: Identity, key: string)
    requires ReplicaOk(rows, rep)
    ensures CachedRun(rep, identity, key).Some? ==> Find(rows, identity, key) == CachedRun(rep, identity, key)
  {}

  lemma FoundIsRow(rows: seq<StoredRun>, nextRun: nat, identity: Identity, key: string)
    requires RowsOk(rows, nextRun) && Find(rows, identity, key).Some?
    ensures IsRow(rows, Find(rows, identity, key).value) && SameSlot(Find(rows, identity, key).value, identity, key)
  {
    FindIsFirst(rows, identity, key);
    RowIsFound(rows, nextRun, Find(rows, identity, key).value);
  }
}
