/** Approve, reject and look calls as programs whose store reads and decisions interleave. Every decision
    is one compare-and-set of the store; the expiry check reads the clock at any earlier moment. */
module ApprovalProtocol {
  import opened IsoTime
  import opened Models
  import opened Approvals

  datatype Operation = ToApprove | ToReject | ToLook

  /** Where a call is. `checkedAt` is the clock reading of its expiry check. */
  datatype Thread =
    | Idle
    | Reading(op: Operation, who: Identity, id: nat)
    | Expiring(op: Operation, who: Identity, record: Record, checkedAt: int)
    | Deciding(op: Operation, who: Identity, record: Record, checkedAt: int)

  /** An approve call drew this token and the store took its hash. The call returned the token, unless the
      store's reply to the decision was lost. */
  datatype Grant = Grant(id: nat, token: string, checkedAt: int, returned: bool)

  datatype State = State(rows: seq<Row>, threads: map<nat, Thread>, grants: seq<Grant>, drawn: set<string>)

  const Initial := State([], map[], [], {})

  datatype Action =
    | Insert(record: Record)
    | Begin(t: nat, op: Operation, who: Identity, id: nat)
    | Check(t: nat, now: int)                 // store.get, and the expiry check against `now`
    | Expire(t: nat, at: int)                 // store.decide(EXPIRED)
    | Settle(t: nat, at: int, token: string, replied: bool)  // store.decide(APPROVED or REJECTED)
    | Abort(t: nat)

  function At(s: State, t: nat): Thread {
    if t in s.threads then s.threads[t] else Idle
  }

  function Moved(s: State, t: nat, pc: Thread): State {
    s.(threads := s.threads[t := pc])
  }

  predicate Enabled(s: State, a: Action) {
    match a
    case Insert(r) => r.status == Pending
    case Begin(t, op, who, _) => At(s, t).Idle? && ScopeOk(who) && (op.ToLook? || MayDecide(who))
    case Check(t, _) => At(s, t).Reading?
    case Expire(t, _) => At(s, t).Expiring?
    case Settle(t, _, token, _) => At(s, t).Deciding? && (At(s, t).op.ToApprove? ==> GoodToken(token) && token !in s.drawn)
    case Abort(_) => true
  }

  /** What a call does with the record it got: it goes on to decide only while that one is pending. */
  function Judged(s: State, t: nat, op: Operation, who: Identity, r: Record, checkedAt: int): State {
    if op.ToLook? || r.status != Pending then Moved(s, t, Idle) else Moved(s, t, Deciding(op, who, r, checkedAt))
  }

  function Step(s: State, a: Action): State
    requires Enabled(s, a)
  {
    match a
    case Insert(r) => (match Create(Sql(s.rows), r) case Some(st) => s.(rows := st.rows) case None => s)
    case Begin(t, op, who, id) => Moved(s, t, Reading(op, who, id))
    case Check(t, now) =>
      var Reading(op, who, id) := At(s, t);
      (match Get(Sql(s.rows), id, who.workspaceId, who.tenantId)
       case None => Moved(s, t, Idle)
       case Some(r) =>
         if r.status == Pending && r.expiresAt <= now then Moved(s, t, Expiring(op, who, r, now))
         else Judged(s, t, op, who, r, now))
    case Expire(t, at) =>
      var Expiring(op, who, r, checkedAt) := At(s, t);
      var (st, updated) := Decide(Sql(s.rows), r.id, r.requester.workspaceId, r.requester.tenantId, Status.Expired, None, at, None);
      Judged(s.(rows := st.rows), t, op, who, if updated.Some? then updated.value else r, checkedAt)
    case Settle(t, at, token, replied) =>
      var Deciding(op, who, r, checkedAt) := At(s, t);
      var approve := op.ToApprove?;
      var (st, updated) := Decide(Sql(s.rows), r.id, who.workspaceId, who.tenantId, if approve then Status.Approved else Status.Rejected,
                                  Some(who.userId), at, if approve then Some(HashToken(token)) else None);
      Moved(s, t, Idle)
        .(rows := st.rows, drawn := if approve then s.drawn + {token} else s.drawn,
          grants := if approve && updated.Some? then s.grants + [Grant(r.id, token, checkedAt, replied)] else s.grants)
    case Abort(t) => Moved(s, t, Idle)
  }

  function After(s: State, acts: seq<Action>): Option<State> {
    if acts == [] then Some(s)
    else
      var before := After(s, acts[..|acts| - 1]);
      var a := acts[|acts| - 1];
      if before.Some? && Enabled(before.value, a) then Some(Step(before.value, a)) else None
  }

  ghost predicate Reachable(s: State) {
    exists acts :: After(Initial, acts) == Some(s)
  }

  // ---------------------------------------------------------------- invariant

  predicate SameRequestAs(a: Record, b: Record) {
    && a.id == b.id && a.requester == b.requester && a.toolName == b.toolName && a.arguments == b.arguments
    && a.risk == b.risk && a.key == b.key && a.requestedAt == b.requestedAt && a.expiresAt == b.expiresAt
  }

  /** A row carries a token hash exactly when it is approved. */
  predicate RowOk(r: Row) {
    (r.record.status == Status.Approved <==> r.hash.Some?) && (r.hash.Some? ==> r.hash.value != "")
  }

  predicate RowsOk(rows: seq<Row>) {
    && (forall i :: 0 <= i < |rows| ==> RowOk(rows[i]))
    && (forall i, j :: 0 <= i < j < |rows| ==> rows[i].record.id != rows[j].record.id)
  }

  /** The row of the record a call has read, which only that record's decision has changed since. */
  ghost predicate ReadOk(rows: seq<Row>, who: Identity, r: Record, decided: bool) {
    exists i :: 0 <= i < |rows| && SameRequestAs(rows[i].record, r) && InScope(r, who.workspaceId, who.tenantId)
             && (decided ==> rows[i].record.status != Pending)
  }

  /** A call that goes on to decide read the clock before the expiry, or its record is decided already. */
  ghost predicate ThreadOk(rows: seq<Row>, pc: Thread) {
    match pc
    case Expiring(_, who, r, _) => ReadOk(rows, who, r, false)
    case Deciding(_, who, r, checkedAt) => ReadOk(rows, who, r, checkedAt >= r.expiresAt)
    case _ => true
  }

  /** The row is approved with the granted token, and the check that led to it came before its expiry. */
  predicate GrantedBy(r: Row, g: Grant) {
    && r.record.id == g.id && r.record.status == Status.Approved
    && r.hash == Some(HashToken(g.token)) && g.checkedAt < r.record.expiresAt
  }

  ghost predicate GrantOk(rows: seq<Row>, g: Grant) {
    GoodToken(g.token) && exists i :: 0 <= i < |rows| && GrantedBy(rows[i], g)
  }

  ghost predicate Inv(s: State) {
    && RowsOk(s.rows)
    && (forall t <- s.threads :: ThreadOk(s.rows, s.threads[t]))
    && (forall k :: 0 <= k < |s.grants| ==> GrantOk(s.rows, s.grants[k]) && s.grants[k].token in s.drawn)
    && (forall i :: 0 <= i < |s.rows| && s.rows[i].record.status == Status.Approved ==> HasGrant(s, s.rows[i]))
    && (forall k, l :: 0 <= k < l < |s.grants| ==> s.grants[k].id != s.grants[l].id)
  }

  /** The approve call that drew the token of an approved row. */
  ghost predicate HasGrant(s: State, r: Row) {
    exists k :: 0 <= k < |s.grants| && s.grants[k].id == r.record.id && r.hash == Some(HashToken(s.grants[k].token))
  }

  /** How rows change: pending ones may be decided, decided ones never change, new ones come last. */
  predicate RowsMove(rows: seq<Row>, more: seq<Row>) {
    && |rows| <= |more|
    && (forall i :: 0 <= i < |rows| ==> SameRequestAs(rows[i].record, more[i].record))
    && (forall i :: 0 <= i < |rows| && rows[i].record.status != Pending ==> more[i] == rows[i])
  }

  /** Row i, which was pending, is decided. */
  predicate DecidesRow(rows: seq<Row>, more: seq<Row>, i: nat, id: nat, r: Record, hash: Option<string>) {
    && i < |rows| && rows[i].record.id == id && rows[i].record.status == Pending
    && more == rows[i := Row(r, hash)] && SameRequestAs(rows[i].record, r)
  }

  predicate NonePending(rows: seq<Row>, id: nat, workspace: string, tenant: string) {
    forall r <- rows :: r.record.id == id && InScope(r.record, workspace, tenant) ==> r.record.status != Pending
  }

  lemma DecideMoves(rows: seq<Row>, id: nat, workspace: string, tenant: string, status: Status, approver: Option<string>, at: int, hash: Option<string>)
    requires RowsOk(rows) && status != Pending && (status == Status.Approved <==> hash.Some?) && hash != Some("")
    ensures var (st, updated) := Decide(Sql(rows), id, workspace, tenant, status, approver, at, hash);
            && st.Sql? && RowsMove(rows, st.rows) && RowsOk(st.rows) && |st.rows| == |rows|
            && (updated.None? ==> st.rows == rows && NonePending(rows, id, workspace, tenant))
            && (updated.Some? ==> updated.value.status == status && exists i: nat :: DecidesRow(rows, st.rows, i, id, updated.value, hash))
  {
    var i := IndexOf(Records(Sql(rows)), HasId(id));
    var (st, updated) := Decide(Sql(rows), id, workspace, tenant, status, approver, at, hash);
    if i < |rows| { assert rows[i].record.id == id; }
    if updated.Some? { assert DecidesRow(rows, st.rows, i, id, updated.value, hash); }
  }

  lemma CreateMoves(rows: seq<Row>, r: Record)
    requires RowsOk(rows) && r.status == Pending && Create(Sql(rows), r).Some?
    ensures var st := Create(Sql(rows), r).value;
            st.Sql? && st.rows == rows + [Row(r, None)] && RowsMove(rows, st.rows) && RowsOk(st.rows)
  {
    forall i | 0 <= i < |rows|
      ensures rows[i].record.id != r.id
    {
      assert !HasId(r.id)(Records(Sql(rows))[i]);
    }
  }

  lemma ReadMoves(rows: seq<Row>, more: seq<Row>, who: Identity, r: Record, decided: bool)
    requires RowsMove(rows, more) && ReadOk(rows, who, r, decided)
    ensures ReadOk(more, who, r, decided)
  {
    var i :| 0 <= i < |rows| && SameRequestAs(rows[i].record, r) && InScope(r, who.workspaceId, who.tenantId)
          && (decided ==> rows[i].record.status != Pending);
    assert SameRequestAs(rows[i].record, more[i].record);
  }

  lemma GrantMoves(rows: seq<Row>, more: seq<Row>, g: Grant)
    requires RowsMove(rows, more) && GrantOk(rows, g)
    ensures GrantOk(more, g)
  {
    var i :| 0 <= i < |rows| && GrantedBy(rows[i], g);
    assert GrantedBy(more[i], g);
  }

  lemma ThreadMoves(rows: seq<Row>, more: seq<Row>, pc: Thread)
    requires RowsMove(rows, more) && ThreadOk(rows, pc)
    ensures ThreadOk(more, pc)
  {
    match pc
    case Expiring(_, who, r, _) => ReadMoves(rows, more, who, r, false);
    case Deciding(_, who, r, checkedAt) => ReadMoves(rows, more, who, r, checkedAt >= r.expiresAt);
    case _ =>
  }

  /** Every step moves rows forward only: what was decided stays as it is. */
  lemma StepRows(s: State, a: Action)
    requires RowsOk(s.rows) && Enabled(s, a)
    ensures RowsMove(s.rows, Step(s, a).rows) && RowsOk(Step(s, a).rows)
  {
    hide Decide, Create, Get, ScopeOk;
    match a
    case Insert(r) => if Create(Sql(s.rows), r).Some? { CreateMoves(s.rows, r); }
    case Expire(t, at) =>
      var r := At(s, t).record;
      DecideMoves(s.rows, r.id, r.requester.workspaceId, r.requester.tenantId, Status.Expired, None, at, None);
    case Settle(t, at, token, _) =>
      var Deciding(op, who, r, _) := At(s, t);
      DecideMoves(s.rows, r.id, who.workspaceId, who.tenantId, if op.ToApprove? then Status.Approved else Status.Rejected,
                  Some(who.userId), at, if op.ToApprove? then Some(HashToken(token)) else None);
    case _ =>
  }

  lemma GetReads(rows: seq<Row>, id: nat, who: Identity)
    ensures var r := Get(Sql(rows), id, who.workspaceId, who.tenantId);
            r.Some? ==> ReadOk(rows, who, r.value, r.value.status != Pending)
  {
    var i := IndexOf(Records(Sql(rows)), HasId(id));
    if i < |rows| && InScope(rows[i].record, who.workspaceId, who.tenantId) {
      assert SameRequestAs(rows[i].record, rows[i].record);
    }
  }

  lemma CheckThread(s: State, t: nat, now: int)
    requires At(s, t).Reading?
    ensures ThreadOk(s.rows, At(Step(s, Check(t, now)), t))
  {
    hide Get;
    var Reading(op, who, id) := At(s, t);
    GetReads(s.rows, id, who);
  }

  lemma ReadUndecided(rows: seq<Row>, who: Identity, r: Record, decided: bool)
    requires ReadOk(rows, who, r, decided)
    ensures ReadOk(rows, who, r, false)
  {}

  /** A stale pending record survives a failed expiry only when its row is decided already. */
  lemma ExpireThread(s: State, t: nat, at: int)
    requires RowsOk(s.rows) && At(s, t).Expiring? && ThreadOk(s.rows, At(s, t))
    ensures ThreadOk(Step(s, Expire(t, at)).rows, At(Step(s, Expire(t, at)), t))
  {
    hide Decide;
    var Expiring(op, who, r, checkedAt) := At(s, t);
    DecideMoves(s.rows, r.id, r.requester.workspaceId, r.requester.tenantId, Status.Expired, None, at, None);
    var (st, updated) := Decide(Sql(s.rows), r.id, r.requester.workspaceId, r.requester.tenantId, Status.Expired, None, at, None);
    if updated.None? {
      var i :| 0 <= i < |s.rows| && SameRequestAs(s.rows[i].record, r) && InScope(r, who.workspaceId, who.tenantId);
      assert s.rows[i].record.status != Pending;
      assert ReadOk(st.rows, who, r, true);
      ReadUndecided(st.rows, who, r, true);
    }
  }

  lemma StepThreads(s: State, a: Action)
    requires Inv(s) && Enabled(s, a)
    ensures forall t <- Step(s, a).threads :: ThreadOk(Step(s, a).rows, Step(s, a).threads[t])
  {
    hide Decide, Create, Get, ScopeOk, GrantOk, HasGrant, ThreadOk;
    StepRows(s, a);
    var s' := Step(s, a);
    match a {
      case Insert(_) =>
      case Check(t, now) => CheckThread(s, t, now);
      case Expire(t, at) => ExpireThread(s, t, at);
      case Begin(t, _, _, _) => IdleThread(s'.rows, At(s', t));
      case Settle(t, _, _, _) => IdleThread(s'.rows, At(s', t));
      case Abort(t) => IdleThread(s'.rows, At(s', t));
    }
    forall t | t in s'.threads && (a.Insert? || t != a.t)
      ensures ThreadOk(s'.rows, s'.threads[t])
    {
      ThreadMoves(s.rows, s'.rows, s.threads[t]);
    }
  }

  lemma IdleThread(rows: seq<Row>, pc: Thread)
    requires pc.Idle? || pc.Reading?
    ensures ThreadOk(rows, pc)
  {}

  /** A successful approval is granted before the expiry, to a record nobody else was granted. */
  lemma SettleGrants(s: State, t: nat, at: int, token: string, replied: bool)
    requires Inv(s) && Enabled(s, Settle(t, at, token, replied))
    ensures var s' := Step(s, Settle(t, at, token, replied));
            && (s'.grants == s.grants || (|s'.grants| == |s.grants| + 1 && s'.grants[..|s.grants|] == s.grants
                   && GrantOk(s'.rows, s'.grants[|s.grants|]) && s'.grants[|s.grants|].token == token
                   && forall k :: 0 <= k < |s.grants| ==> s.grants[k].id != s'.grants[|s.grants|].id))
            && (forall i :: 0 <= i < |s'.rows| && s'.rows[i].record.status == Status.Approved ==> HasGrant(s', s'.rows[i]))
  {
    hide Decide;
    var Deciding(op, who, r, checkedAt) := At(s, t);
    var s' := Step(s, Settle(t, at, token, replied));
    var status := if op.ToApprove? then Status.Approved else Status.Rejected;
    var hash := if op.ToApprove? then Some(HashToken(token)) else None;
    DecideMoves(s.rows, r.id, who.workspaceId, who.tenantId, status, Some(who.userId), at, hash);
    var (st, updated) := Decide(Sql(s.rows), r.id, who.workspaceId, who.tenantId, status, Some(who.userId), at, hash);
    assert ThreadOk(s.rows, s.threads[t]);
    if updated.Some? {
      var i: nat :| DecidesRow(s.rows, st.rows, i, r.id, updated.value, hash);
      SettledBefore(s.rows, who, r, checkedAt, i);
      if op.ToApprove? {
        assert GrantedBy(st.rows[i], Grant(r.id, token, checkedAt, replied));
        forall k | 0 <= k < |s.grants|
          ensures s.grants[k].id != r.id
        {
          assert GrantOk(s.rows, s.grants[k]);
        }
      }
    }
    forall j | 0 <= j < |s'.rows| && s'.rows[j].record.status == Status.Approved
      ensures HasGrant(s', s'.rows[j])
    {
      if s'.rows[j] == s.rows[j] {
        HasGrantGrows(s, s', s.rows[j]);
      } else {
        assert s'.grants[|s.grants|].id == s'.rows[j].record.id;
      }
    }
  }

  lemma HasGrantGrows(s: State, s': State, r: Row)
    requires HasGrant(s, r) && s.grants <= s'.grants
    ensures HasGrant(s', r)
  {
    var k :| 0 <= k < |s.grants| && s.grants[k].id == r.record.id && r.hash == Some(HashToken(s.grants[k].token));
    assert s'.grants[k] == s.grants[k];
  }

  /** The row was still pending, so the call's clock reading came before the expiry. */
  lemma SettledBefore(rows: seq<Row>, who: Identity, r: Record, checkedAt: int, i: nat)
    requires RowsOk(rows) && ReadOk(rows, who, r, checkedAt >= r.expiresAt)
    requires i < |rows| && rows[i].record.id == r.id && rows[i].record.status == Pending
    ensures checkedAt < r.expiresAt && rows[i].record.expiresAt == r.expiresAt
  {}

  lemma StepInv(s: State, a: Action)
    requires Inv(s) && Enabled(s, a)
    ensures Inv(Step(s, a))
  {
    hide Decide, Create, Get, ScopeOk, ThreadOk, GrantOk, RowsMove;
    var s' := Step(s, a);
    StepRows(s, a);
    StepThreads(s, a);
    forall k | 0 <= k < |s.grants|
      ensures GrantOk(s'.rows, s.grants[k])
    {
      GrantMoves(s.rows, s'.rows, s.grants[k]);
    }
    if a.Settle? {
      SettleGrants(s, a.t, a.at, a.token, a.replied);
      forall k | 0 <= k < |s.grants|
        ensures s'.grants[k] == s.grants[k]
      {
        assert s'.grants[..|s.grants|][k] == s.grants[k];
      }
    } else {
      OthersKeepApproved(s, a);
    }
  }

  lemma OthersKeepApproved(s: State, a: Action)
    requires Inv(s) && Enabled(s, a) && !a.Settle?
    ensures Step(s, a).grants == s.grants && Step(s, a).drawn == s.drawn
    ensures forall i :: 0 <= i < |Step(s, a).rows| && Step(s, a).rows[i].record.status == Status.Approved ==> HasGrant(Step(s, a), Step(s, a).rows[i])
  {
    hide Decide, Create, Get, ScopeOk, ThreadOk, GrantOk;
    var s' := Step(s, a);
    match a {
      case Insert(r) => if Create(Sql(s.rows), r).Some? { CreateMoves(s.rows, r); }
      case Expire(t, at) =>
        var r := At(s, t).record;
        DecideMoves(s.rows, r.id, r.requester.workspaceId, r.requester.tenantId, Status.Expired, None, at, None);
        var (st, updated) := Decide(Sql(s.rows), r.id, r.requester.workspaceId, r.requester.tenantId, Status.Expired, None, at, None);
        if updated.Some? {
          var i: nat :| DecidesRow(s.rows, st.rows, i, r.id, updated.value, None);
          assert s'.rows == s.rows[i := Row(updated.value, None)];
        }
      case _ =>
    }
    forall i | 0 <= i < |s'.rows| && s'.rows[i].record.status == Status.Approved
      ensures HasGrant(s', s'.rows[i])
    {
      assert s'.rows[i] == s.rows[i];
      HasGrantGrows(s, s', s.rows[i]);
    }
  }

  lemma {:induction false} RunInv(acts: seq<Action>)
    requires After(Initial, acts).Some?
    ensures Inv(After(Initial, acts).value)
    decreases |acts|
  {
    hide Step, Enabled, Inv;
    if acts == [] {
      InitialInv();
    } else {
      RunInv(acts[..|acts| - 1]);
      StepInv(After(Initial, acts[..|acts| - 1]).value, acts[|acts| - 1]);
    }
  }

  lemma InitialInv()
    ensures Inv(Initial)
  {}

  lemma ReachableInv(s: State)
    requires Reachable(s)
    ensures Inv(s)
  {
    hide Step, Enabled;
    var acts :| After(Initial, acts) == Some(s);
    RunInv(acts);
  }

  // ---------------------------------------------------------------- theorems

  /** Each approval leaves pending at most once: a decided row never changes again, and no row changes
      what was requested. */
  lemma DecidedStays(s: State, a: Action, i: nat)
    requires Reachable(s) && Enabled(s, a) && i < |s.rows|
    ensures i < |Step(s, a).rows| && SameRequestAs(s.rows[i].record, Step(s, a).rows[i].record)
    ensures s.rows[i].record.status != Pending ==> Step(s, a).rows[i] == s.rows[i]
  {
    hide Step, Enabled;
    ReachableInv(s);
    StepRows(s, a);
  }

  // ---------------------------------------------------------------- who decides

  /** Some call of the run began as this operation, by this caller, on this approval; only admins and managers
      begin to approve or reject. */
  ghost predicate HasBegun(acts: seq<Action>, op: Operation, who: Identity, id: nat) {
    && (exists k :: 0 <= k < |acts| && acts[k].Begin? && acts[k].op == op && acts[k].who == who && acts[k].id == id)
    && (op.ToLook? || who.role == "admin" || who.role == "manager")
  }

  ghost predicate ThreadBegun(acts: seq<Action>, pc: Thread) {
    match pc
    case Idle => true
    case Reading(op, who, id) => HasBegun(acts, op, who, id)
    case Expiring(op, who, r, _) => HasBegun(acts, op, who, r.id)
    case Deciding(op, who, r, _) => HasBegun(acts, op, who, r.id)
  }

  /** A call of the run, by a caller who may decide in the approval's own workspace and tenant and is entered
      as its approver. */
  ghost predicate DecidedIn(acts: seq<Action>, r: Record, who: Identity) {
    && HasBegun(acts, if r.status == Status.Approved then ToApprove else ToReject, who, r.id)
    && r.approver == Some(who.userId) && r.requester.workspaceId == who.workspaceId && r.requester.tenantId == who.tenantId
  }

  ghost predicate RowBegun(acts: seq<Action>, r: Record) {
    r.status == Status.Approved || r.status == Status.Rejected ==> exists who :: DecidedIn(acts, r, who)
  }

  ghost predicate AllBegun(acts: seq<Action>, s: State) {
    && (forall t <- s.threads :: ThreadBegun(acts, s.threads[t]))
    && (forall i :: 0 <= i < |s.rows| ==> RowBegun(acts, s.rows[i].record))
  }

  lemma BegunStays(acts: seq<Action>, a: Action)
    ensures forall op, who, id :: HasBegun(acts, op, who, id) ==> HasBegun(acts + [a], op, who, id)
    ensures forall pc :: ThreadBegun(acts, pc) ==> ThreadBegun(acts + [a], pc)
    ensures forall r :: RowBegun(acts, r) ==> RowBegun(acts + [a], r)
  {
    forall op, who, id | HasBegun(acts, op, who, id)
      ensures HasBegun(acts + [a], op, who, id)
    {
      var k :| 0 <= k < |acts| && acts[k].Begin? && acts[k].op == op && acts[k].who == who && acts[k].id == id;
      assert (acts + [a])[k] == acts[k];
    }
    hide HasBegun;
    forall r | RowBegun(acts, r)
      ensures RowBegun(acts + [a], r)
    {
      if who :| DecidedIn(acts, r, who) { assert DecidedIn(acts + [a], r, who); }
    }
  }

  lemma BeginsNow(acts: seq<Action>, s: State, t: nat, op: Operation, who: Identity, id: nat)
    requires Enabled(s, Begin(t, op, who, id))
    ensures HasBegun(acts + [Begin(t, op, who, id)], op, who, id)
  {
    assert (acts + [Begin(t, op, who, id)])[|acts|] == Begin(t, op, who, id);
  }

  /** A store's decision on a row, in full. */
  lemma DecideRow(rows: seq<Row>, id: nat, workspace: string, tenant: string, status: Status, approver: Option<string>, at: int, hash: Option<string>)
    ensures var (st, updated) := Decide(Sql(rows), id, workspace, tenant, status, approver, at, hash);
            var i := IndexOf(Records(Sql(rows)), HasId(id));
            && st.Sql?
            && (updated.None? ==> st.rows == rows)
            && (updated.Some? ==> i < |rows| && rows[i].record.id == id && InScope(rows[i].record, workspace, tenant)
                                  && updated.value == Decided(rows[i].record, status, approver, at) && st.rows == rows[i := Row(updated.value, hash)])
  {
    var i := IndexOf(Records(Sql(rows)), HasId(id));
    if i < |rows| { assert HasId(id)(Records(Sql(rows))[i]); }
  }

  lemma SettleBegun(acts: seq<Action>, s: State, t: nat, at: int, token: string, replied: bool)
    requires AllBegun(acts, s) && Enabled(s, Settle(t, at, token, replied))
    requires At(s, t).op.ToApprove? || At(s, t).op.ToReject?
    ensures forall i :: 0 <= i < |Step(s, Settle(t, at, token, replied)).rows| ==> RowBegun(acts, Step(s, Settle(t, at, token, replied)).rows[i].record)
  {
    hide Decide, HasBegun, IndexOf, ScopeOk, MayDecide;
    var Deciding(op, who, r, _) := At(s, t);
    var status := if op.ToApprove? then Status.Approved else Status.Rejected;
    var hash := if op.ToApprove? then Some(HashToken(token)) else None;
    DecideRow(s.rows, r.id, who.workspaceId, who.tenantId, status, Some(who.userId), at, hash);
    var (st, updated) := Decide(Sql(s.rows), r.id, who.workspaceId, who.tenantId, status, Some(who.userId), at, hash);
    if updated.Some? {
      assert ThreadBegun(acts, s.threads[t]);
      assert DecidedIn(acts, updated.value, who);
    }
  }

  lemma ExpireBegun(acts: seq<Action>, s: State, t: nat, at: int)
    requires AllBegun(acts, s) && Enabled(s, Expire(t, at))
    ensures forall i :: 0 <= i < |Step(s, Expire(t, at)).rows| ==> RowBegun(acts, Step(s, Expire(t, at)).rows[i].record)
    ensures ThreadBegun(acts, At(Step(s, Expire(t, at)), t))
  {
    hide Decide, HasBegun, IndexOf, ScopeOk, MayDecide;
    var r := At(s, t).record;
    assert ThreadBegun(acts, s.threads[t]);
    DecideRow(s.rows, r.id, r.requester.workspaceId, r.requester.tenantId, Status.Expired, None, at, None);
    var (st, updated) := Decide(Sql(s.rows), r.id, r.requester.workspaceId, r.requester.tenantId, Status.Expired, None, at, None);
    assert Step(s, Expire(t, at)).rows == st.rows;
    if updated.Some? { assert RowBegun(acts, updated.value); }
  }

  lemma StepBegun(acts: seq<Action>, s: State, a: Action)
    requires AllBegun(acts, s) && LooksAside(s) && Enabled(s, a)
    ensures AllBegun(acts + [a], Step(s, a))
  {
    hide Decide, Create, Get, HasBegun, ScopeOk, MayDecide, RowBegun;
    BegunStays(acts, a);
    match a
    case Insert(r) => InsertBegun(acts, s, r);
    case Begin(t, op, who, id) => BeginsNow(acts, s, t, op, who, id);
    case Check(t, now) =>
      assert ThreadBegun(acts, s.threads[t]);
      GetsId(s.rows, At(s, t).id, At(s, t).who);
    case Expire(t, at) => ExpireBegun(acts, s, t, at);
    case Settle(t, at, token, replied) => SettleBegun(acts, s, t, at, token, replied);
    case Abort(_) =>
  }

  lemma InsertBegun(acts: seq<Action>, s: State, r: Record)
    requires AllBegun(acts, s) && r.status == Pending
    ensures forall i :: 0 <= i < |Step(s, Insert(r)).rows| ==> RowBegun(acts, Step(s, Insert(r)).rows[i].record)
  {
    hide HasBegun;
  }

  lemma GetsId(rows: seq<Row>, id: nat, who: Identity)
    ensures var r := Get(Sql(rows), id, who.workspaceId, who.tenantId); r.Some? ==> r.value.id == id
  {
    var i := IndexOf(Records(Sql(rows)), HasId(id));
    if i < |rows| { assert HasId(id)(Records(Sql(rows))[i]); }
  }

  /** Only approve and reject calls get as far as deciding. */
  predicate LooksAside(s: State) {
    forall t <- s.threads :: s.threads[t].Deciding? ==> !s.threads[t].op.ToLook?
  }

  lemma StepAside(s: State, a: Action)
    requires LooksAside(s) && Enabled(s, a)
    ensures LooksAside(Step(s, a))
  {
    hide Decide, Create, Get, ScopeOk, MayDecide;
  }

  lemma {:induction false} RunBegun(acts: seq<Action>)
    requires After(Initial, acts).Some?
    ensures var s := After(Initial, acts).value; AllBegun(acts, s) && LooksAside(s)
    decreases |acts|
  {
    hide Step, Enabled, AllBegun, LooksAside;
    if acts == [] {
      NoneBegun();
    } else {
      var front, a := acts[..|acts| - 1], acts[|acts| - 1];
      RunBegun(front);
      StepAside(After(Initial, front).value, a);
      StepBegun(front, After(Initial, front).value, a);
      assert front + [a] == acts;
    }
  }

  lemma NoneBegun()
    ensures AllBegun([], Initial) && LooksAside(Initial)
  {}

  /** In every interleaving an approved or rejected approval was decided by a call of that run, which an admin
      or manager of the approval's workspace and tenant began, and who is entered as its approver. */
  lemma ApproversDecide(acts: seq<Action>, i: nat) returns (k: nat)
    requires After(Initial, acts).Some? && i < |After(Initial, acts).value.rows|
    requires var st := After(Initial, acts).value.rows[i].record.status; st == Status.Approved || st == Status.Rejected
    ensures var r := After(Initial, acts).value.rows[i].record;
            && k < |acts| && acts[k].Begin? && acts[k].id == r.id
            && acts[k].op == (if r.status == Status.Approved then ToApprove else ToReject)
            && (acts[k].who.role == "admin" || acts[k].who.role == "manager")
            && acts[k].who.workspaceId == r.requester.workspaceId && acts[k].who.tenantId == r.requester.tenantId
            && r.approver == Some(acts[k].who.userId)
  {
    hide After;
    RunBegun(acts);
    var r := After(Initial, acts).value.rows[i].record;
    assert RowBegun(acts, r);
    var who :| DecidedIn(acts, r, who);
    k :| k < |acts| && acts[k].Begin? && acts[k].op == (if r.status == Status.Approved then ToApprove else ToReject) && acts[k].who == who && acts[k].id == r.id;
  }

  /** An approval holds a token hash exactly when it is approved. */
  lemma HashIffApproved(s: State, i: nat)
    requires Reachable(s) && i < |s.rows|
    ensures s.rows[i].record.status == Status.Approved <==> s.rows[i].hash.Some?
  {
    hide Step, Enabled;
    ReachableInv(s);
  }

  /** At most one approve call of an approval ever gets its token stored, let alone returns it, and only one
      whose expiry check read a time before the expiry. */
  lemma OneTokenPerApproval(s: State, k: nat, l: nat)
    requires Reachable(s) && k < |s.grants| && l < |s.grants| && s.grants[k].id == s.grants[l].id
    ensures k == l
    ensures exists i :: 0 <= i < |s.rows| && GrantedBy(s.rows[i], s.grants[k])
  {
    hide Step, Enabled;
    ReachableInv(s);
    assert GrantOk(s.rows, s.grants[k]);
  }

  /** Verification accepts nothing but the token that the one approve call drew for that approval, with
      the tool and arguments that were requested. */
  lemma OnlyGrantedTokensVerify(s: State, i: nat, who: Identity, token: string, toolName: string, arguments: string)
    requires Reachable(s) && i < |s.rows|
    requires Verified(Sql(s.rows), s.rows[i].record, who, token, toolName, arguments)
    ensures s.rows[i].record.toolName == toolName && s.rows[i].record.arguments == arguments
    ensures exists k :: 0 <= k < |s.grants| && s.grants[k].id == s.rows[i].record.id && s.grants[k].token == token
  {
    hide Step, Enabled;
    ReachableInv(s);
    HashStored(s.rows, i, who);
    assert HasGrant(s, s.rows[i]);
    var k :| 0 <= k < |s.grants| && s.grants[k].id == s.rows[i].record.id && s.rows[i].hash == Some(HashToken(s.grants[k].token));
    assert GrantOk(s.rows, s.grants[k]);
    HashInjective(s.grants[k].token, token);
  }

  /** The token of a grant verifies, for everyone in the approval's scope, with its tool and arguments. */
  lemma GrantedTokenVerifies(s: State, k: nat, who: Identity) returns (i: nat)
    requires Reachable(s) && k < |s.grants|
    ensures i < |s.rows| && s.rows[i].record.id == s.grants[k].id
    ensures var r := s.rows[i].record;
            InScope(r, who.workspaceId, who.tenantId) ==> Verified(Sql(s.rows), r, who, s.grants[k].token, r.toolName, r.arguments)
  {
    hide Step, Enabled;
    ReachableInv(s);
    assert GrantOk(s.rows, s.grants[k]);
    i :| i < |s.rows| && GrantedBy(s.rows[i], s.grants[k]);
    if InScope(s.rows[i].record, who.workspaceId, who.tenantId) { HashFound(s.rows, i, who); }
  }

  lemma HashFound(rows: seq<Row>, i: nat, who: Identity)
    requires RowsOk(rows) && i < |rows| && rows[i].hash.Some? && InScope(rows[i].record, who.workspaceId, who.tenantId)
    ensures TokenHash(Sql(rows), rows[i].record.id, who.workspaceId, who.tenantId) == rows[i].hash
  {
    var j := IndexOf(Records(Sql(rows)), HasId(rows[i].record.id));
    assert HasId(rows[i].record.id)(Records(Sql(rows))[i]);
    assert j <= i && rows[j].record.id == rows[i].record.id;
  }

  lemma HashStored(rows: seq<Row>, i: nat, who: Identity)
    requires RowsOk(rows) && i < |rows|
    ensures var h := TokenHash(Sql(rows), rows[i].record.id, who.workspaceId, who.tenantId);
            h.Some? ==> h == rows[i].hash
  {
    var j := IndexOf(Records(Sql(rows)), HasId(rows[i].record.id));
    assert HasId(rows[i].record.id)(Records(Sql(rows))[i]);
    assert j <= i && rows[j].record.id == rows[i].record.id;
  }
}
