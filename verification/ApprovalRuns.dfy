/** Sequential service histories are runs of the decision protocol, so that its theorems hold of the service
    over either store. */
module ApprovalRuns {
  import opened IsoTime
  import opened Models
  import opened Approvals
  import Protocol = ApprovalProtocol

  /** The store after a sequential history of calls. */
  function Stored(st: Store, calls: seq<Call>): Store {
    if calls == [] then st else Serve(Stored(st, calls[..|calls| - 1]), calls[|calls| - 1]).0
  }

  lemma StoredMore(st: Store, calls: seq<Call>, c: Call)
    ensures Stored(st, calls + [c]) == Serve(Stored(st, calls), c).0
  {
    assert (calls + [c])[..|calls|] == calls;
  }

  /** The tokens that the calls of a history draw. */
  function Tokens(calls: seq<Call>): set<string> {
    set c <- calls | c.Approve? :: c.token
  }

  /** Drawn tokens have an admissible length and are never drawn twice. */
  predicate WellDrawn(calls: seq<Call>) {
    && (forall c <- calls :: Drawable(c))
    && forall i, j :: 0 <= i < j < |calls| && calls[i].Approve? && calls[j].Approve? ==> calls[i].token != calls[j].token
  }

  /** The grants that the answers of a history tell of. */
  function Grants(st: Store, calls: seq<Call>): seq<Protocol.Grant> {
    if calls == [] then []
    else
      var front := calls[..|calls| - 1];
      Grants(st, front) + Granting(Stored(st, front), calls[|calls| - 1])
  }

  /** The approve, reject or look that a call performs on one approval, if it does. */
  function OperationOf(c: Call): Option<(Protocol.Operation, Identity, nat)> {
    match c
    case Approve(who, id, _, _, _) => if ScopeOk(who) && MayDecide(who) then Some((Protocol.ToApprove, who, id)) else None
    case Reject(who, id, _, _) => if ScopeOk(who) && MayDecide(who) then Some((Protocol.ToReject, who, id)) else None
    case Look(who, id, _, _) => if ScopeOk(who) then Some((Protocol.ToLook, who, id)) else None
    case Verify(who, id, _, _, _, _, _) => if ScopeOk(who) then Some((Protocol.ToLook, who, id)) else None
    case _ => None
  }

  /** A state of the protocol with this many rows, grants and drawn tokens, at rest. */
  predicate AtRest(s: Protocol.State, st: Store, grants: seq<Protocol.Grant>, drawn: set<string>) {
    && st == Sql(s.rows) && s.grants == grants && s.drawn <= drawn
    && forall t <- s.threads :: s.threads[t].Idle?
  }

  lemma ReachMore(s: Protocol.State, a: Protocol.Action)
    requires Protocol.Reachable(s) && Protocol.Enabled(s, a)
    ensures Protocol.Reachable(Protocol.Step(s, a))
  {
    hide Protocol.Step, Protocol.Enabled;
    var acts :| Protocol.After(Protocol.Initial, acts) == Some(s);
    assert (acts + [a])[..|acts|] == acts;
    assert Protocol.After(Protocol.Initial, acts + [a]) == Some(Protocol.Step(s, a));
  }

  /** Reading, and expiring what is due, as steps of thread 0: the state in which the call may decide. */
  lemma LookIsRun(s: Protocol.State, op: Protocol.Operation, who: Identity, id: nat, now: int, at: int) returns (t: Protocol.State)
    requires Protocol.Reachable(s) && AtRest(s, Sql(s.rows), s.grants, s.drawn)
    requires ScopeOk(who) && (op.ToLook? || MayDecide(who))
    ensures Protocol.Reachable(t) && t.grants == s.grants && t.drawn == s.drawn
    ensures forall u <- t.threads :: u != 0 ==> t.threads[u].Idle?
    ensures var (st, r) := Looked(Sql(s.rows), who, id, now, at);
            && st == Sql(t.rows)
            && Protocol.At(t, 0) == if !op.ToLook? && r.Some? && r.value.status == Pending then Protocol.Deciding(op, who, r.value, now) else Protocol.Idle
  {
    hide Protocol.Reachable, Decide, Get, ScopeOk, MayDecide;
    ReachMore(s, Protocol.Begin(0, op, who, id));
    var s1 := Protocol.Step(s, Protocol.Begin(0, op, who, id));
    ReachMore(s1, Protocol.Check(0, now));
    t := Protocol.Step(s1, Protocol.Check(0, now));
    if Protocol.At(t, 0).Expiring? {
      GotId(Sql(s.rows), id, who);
      DecideIsSql(s.rows, Protocol.At(t, 0).record, at);
      ReachMore(t, Protocol.Expire(0, at));
      t := Protocol.Step(t, Protocol.Expire(0, at));
    }
  }

  lemma GotId(st: Store, id: nat, who: Identity)
    ensures var r := Get(st, id, who.workspaceId, who.tenantId); r.Some? ==> r.value.id == id
  {
    var i := IndexOf(Records(st), HasId(id));
    if i < |Records(st)| { assert HasId(id)(Records(st)[i]); }
  }

  lemma DecideIsSql(rows: seq<Row>, r: Record, at: int)
    ensures Decide(Sql(rows), r.id, r.requester.workspaceId, r.requester.tenantId, Expired, None, at, None).0.Sql?
  {}

  /** The decision at the end of an approve or reject call. */
  lemma DecisionIsRun(s: Protocol.State, at: int, token: string) returns (t: Protocol.State)
    requires Protocol.Reachable(s) && Protocol.At(s, 0).Deciding? && !Protocol.At(s, 0).op.ToLook?
    requires Protocol.At(s, 0).op.ToApprove? ==> GoodToken(token) && token !in s.drawn
    requires forall u <- s.threads :: u != 0 ==> s.threads[u].Idle?
    ensures Protocol.Reachable(t) && forall u <- t.threads :: t.threads[u].Idle?
    ensures var pc := Protocol.At(s, 0);
            var approve := pc.op.ToApprove?;
            var (st, updated) := Decide(Sql(s.rows), pc.record.id, pc.who.workspaceId, pc.who.tenantId, if approve then Approved else Rejected,
                                        Some(pc.who.userId), at, if approve then Some(HashToken(token)) else None);
            && st == Sql(t.rows) && t.drawn <= s.drawn + {token} && (!approve ==> t.drawn == s.drawn)
            && t.grants == s.grants + if approve && updated.Some? then [Protocol.Grant(pc.record.id, token, pc.checkedAt, true)] else []
  {
    hide Protocol.Reachable;
    ReachMore(s, Protocol.Settle(0, at, token, true));
    t := Protocol.Step(s, Protocol.Settle(0, at, token, true));
    assert s.grants + [] == s.grants;
  }

  /** What a call adds to the grants. */
  function Granting(st: Store, c: Call): seq<Protocol.Grant> {
    var answer := Serve(st, c).1;
    if c.Approve? && answer.Granted? then [Protocol.Grant(answer.record.id, c.token, c.now, true)] else []
  }

  /** A service call, made while no other is under way, is a run of the protocol: it leaves the same store and
      grants what it answers. */
  lemma CallIsRun(s: Protocol.State, c: Call) returns (t: Protocol.State)
    requires Protocol.Reachable(s) && AtRest(s, Sql(s.rows), s.grants, s.drawn)
    requires c.Approve? ==> GoodToken(c.token) && c.token !in s.drawn
    ensures Protocol.Reachable(t) && AtRest(t, Serve(Sql(s.rows), c).0, s.grants + Granting(Sql(s.rows), c), s.drawn + Tokens([c]))
  {
    hide Protocol.Reachable, Decide, Get, Create, FindRequest, RequestOk, Looked, ScopeOk, MayDecide, List;
    assert s.grants + [] == s.grants;
    if OperationOf(c).Some? {
      t := OperationIsRun(s, c);
    } else if c.Request? && Serve(Sql(s.rows), c).0 != Sql(s.rows) {
      ReachMore(s, Protocol.Insert(NewRecord(c)));
      t := Protocol.Step(s, Protocol.Insert(NewRecord(c)));
      CreateIsSql(s.rows, NewRecord(c));
      assert AtRest(t, Serve(Sql(s.rows), c).0, s.grants + Granting(Sql(s.rows), c), s.drawn + Tokens([c]));
    } else {
      t := s;
      assert AtRest(t, Serve(Sql(s.rows), c).0, s.grants + Granting(Sql(s.rows), c), s.drawn + Tokens([c]));
    }
  }

  lemma OperationIsRun(s: Protocol.State, c: Call) returns (t: Protocol.State)
    requires Protocol.Reachable(s) && AtRest(s, Sql(s.rows), s.grants, s.drawn) && OperationOf(c).Some?
    requires c.Approve? ==> GoodToken(c.token) && c.token !in s.drawn
    ensures Protocol.Reachable(t) && AtRest(t, Serve(Sql(s.rows), c).0, s.grants + Granting(Sql(s.rows), c), s.drawn + Tokens([c]))
  {
    hide Protocol.Reachable, Decide, Get, Looked, ScopeOk, MayDecide;
    assert s.grants + [] == s.grants;
    assert c in [c];
    var (op, who, id) := OperationOf(c).value;
    t := LookIsRun(s, op, who, id, c.now, c.at);
    if Protocol.At(t, 0).Deciding? {
      var token := if c.Approve? then c.token else "";
      LookedId(Sql(s.rows), who, id, c.now, c.at);
      DecidedKeeps(t.rows, id, who, c.at, token, c.Approve?);
      var pc := Protocol.At(t, 0);
      assert Looked(Sql(s.rows), who, id, c.now, c.at) == (Sql(t.rows), Some(pc.record)) && pc.record.id == id;
      assert c.Approve? ==> c.token in Tokens([c]);
      ServeDecides(s, t, c);
      t := DecisionIsRun(t, c.at, token);
    } else {
      ServeLooks(s, c);
    }
  }

  /** A call that does not get as far as deciding leaves the store as its look did, and grants nothing. */
  lemma ServeLooks(s: Protocol.State, c: Call)
    requires OperationOf(c).Some?
    requires var r := Looked(Sql(s.rows), c.who, c.id, c.now, c.at).1; c.Look? || c.Verify? || r.None? || r.value.status != Pending
    ensures Serve(Sql(s.rows), c).0 == Looked(Sql(s.rows), c.who, c.id, c.now, c.at).0 && Granting(Sql(s.rows), c) == []
  {
    hide Decide, Looked, ScopeOk, MayDecide;
    match c
    case Approve(_, _, _, _, _) =>
    case Reject(_, _, _, _) =>
    case Look(_, _, _, _) =>
    case Verify(_, _, _, _, _, _, _) =>
    case _ =>
  }

  /** The store and the answer of an approve or reject call that gets as far as deciding. */
  lemma ServeDecides(s: Protocol.State, t: Protocol.State, c: Call)
    requires c.Approve? || c.Reject?
    requires ScopeOk(c.who) && MayDecide(c.who)
    requires Looked(Sql(s.rows), c.who, c.id, c.now, c.at).0 == Sql(t.rows)
    requires var r := Looked(Sql(s.rows), c.who, c.id, c.now, c.at).1; r.Some? && r.value.status == Pending
    ensures var (st, updated) := Decide(Sql(t.rows), c.id, c.who.workspaceId, c.who.tenantId, if c.Approve? then Approved else Rejected,
                                        Some(c.who.userId), c.at, if c.Approve? then Some(HashToken(c.token)) else None);
            && Serve(Sql(s.rows), c).0 == st
            && Granting(Sql(s.rows), c) == if c.Approve? && updated.Some? then [Protocol.Grant(updated.value.id, c.token, c.now, true)] else []
  {
    hide Decide, Looked, ScopeOk, MayDecide;
  }

  lemma CreateIsSql(rows: seq<Row>, r: Record)
    ensures Create(Sql(rows), r).Some? ==> Create(Sql(rows), r).value.Sql?
  {}

  lemma LookedId(st: Store, who: Identity, id: nat, now: int, at: int)
    ensures var r := Looked(st, who, id, now, at).1; r.Some? ==> r.value.id == id
  {
    GotId(st, id, who);
  }

  /** A decision returns the record that it was asked for. */
  lemma DecidedKeeps(rows: seq<Row>, id: nat, who: Identity, at: int, token: string, approve: bool)
    ensures var updated := Decide(Sql(rows), id, who.workspaceId, who.tenantId, if approve then Approved else Rejected,
                                  Some(who.userId), at, if approve then Some(HashToken(token)) else None).1;
            updated.Some? ==> updated.value.id == id
  {
    var i := IndexOf(Records(Sql(rows)), HasId(id));
    if i < |rows| { assert HasId(id)(Records(Sql(rows))[i]); }
  }

  /** Every sequential history of service calls is a run of the protocol. */
  lemma {:induction false} HistoryIsRun(calls: seq<Call>) returns (s: Protocol.State)
    requires WellDrawn(calls)
    ensures Protocol.Reachable(s) && AtRest(s, Stored(Sql([]), calls), Grants(Sql([]), calls), Tokens(calls))
    decreases |calls|
  {
    hide Protocol.Reachable, Serve, Protocol.After, Tokens, Granting, WellDrawn;
    if calls == [] {
      s := Protocol.Initial;
      InitialReachable();
    } else {
      var front, c := calls[..|calls| - 1], calls[|calls| - 1];
      FreshToken(calls);
      TokensMore(front, c);
      var before := HistoryIsRun(front);
      s := CallIsRun(before, c);
      assert calls == front + [c];
    }
  }

  lemma InitialReachable()
    ensures Protocol.Reachable(Protocol.Initial)
  {
    assert Protocol.After(Protocol.Initial, []) == Some(Protocol.Initial);
  }

  lemma FreshToken(calls: seq<Call>)
    requires WellDrawn(calls) && calls != []
    ensures WellDrawn(calls[..|calls| - 1])
    ensures var c := calls[|calls| - 1]; c.Approve? ==> GoodToken(c.token) && c.token !in Tokens(calls[..|calls| - 1])
  {
    assert Drawable(calls[|calls| - 1]);
  }

  lemma TokensMore(front: seq<Call>, c: Call)
    ensures Tokens(front) + Tokens([c]) == Tokens(front + [c])
  {
    assert forall d :: d in front + [c] <==> d in front || d in [c];
  }

  /** The in-memory store goes through the same history, and its answers grant the same. */
  lemma {:induction false} MemoryHistory(calls: seq<Call>)
    requires forall c <- calls :: Drawable(c)
    ensures Alike(Stored(Memory([], map[]), calls), Stored(Sql([]), calls))
    ensures Grants(Memory([], map[]), calls) == Grants(Sql([]), calls)
    decreases |calls|
  {
    hide Alike, Serve;
    if calls == [] {
      EmptyAlike();
    } else {
      var front, c := calls[..|calls| - 1], calls[|calls| - 1];
      MemoryHistory(front);
      ServeAlike(Stored(Memory([], map[]), front), Stored(Sql([]), front), c);
    }
  }

  // ---------------------------------------------------------------- what holds of every sequential history

  /** At most one approve call of an approval ever answers with a token. */
  lemma HistoryGrantsOnce(calls: seq<Call>, k: nat, l: nat)
    requires WellDrawn(calls)
    ensures var g := Grants(Memory([], map[]), calls); k < l < |g| ==> g[k].id != g[l].id
  {
    hide Protocol.Reachable, Stored, Grants;
    MemoryHistory(calls);
    var s := HistoryIsRun(calls);
    if k < l < |s.grants| && s.grants[k].id == s.grants[l].id {
      Protocol.OneTokenPerApproval(s, k, l);
    }
  }

  /** After any history, verification answers true only for a token with which an approve call of that history
      answered, for that approval, and for the tool and arguments that were requested. */
  lemma HistoryVerifiesGranted(calls: seq<Call>, c: Call)
    requires WellDrawn(calls) && c.Verify? && Serve(Stored(Memory([], map[]), calls), c).1 == Truth(true)
    ensures exists k :: 0 <= k < |Grants(Memory([], map[]), calls)| && Grants(Memory([], map[]), calls)[k].id == c.id
                   && Grants(Memory([], map[]), calls)[k].token == c.token
  {
    hide Protocol.Reachable, Stored, Grants;
    var m := Stored(Memory([], map[]), calls);
    MemoryHistory(calls);
    var s := HistoryIsRun(calls);
    ServeAlike(m, Sql(s.rows), c);
    var i := VerifiedRow(Sql(s.rows), c);
    Protocol.OnlyGrantedTokensVerify(s, i, c.who, c.token, c.toolName, c.arguments);
  }

  lemma VerifiedRow(st: Store, c: Call) returns (i: nat)
    requires st.Sql? && c.Verify? && Serve(st, c).1 == Truth(true)
    ensures i < |st.rows| && st.rows[i].record.id == c.id && Verified(st, st.rows[i].record, c.who, c.token, c.toolName, c.arguments)
  {
    i := IndexOf(Records(st), HasId(c.id));
    if i < |st.rows| { assert HasId(c.id)(Records(st)[i]); }
  }
}
