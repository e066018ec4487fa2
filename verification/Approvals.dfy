/** Approval records, the two representations that stores keep them in, and the service on top. */
module Approvals {
  import opened IsoTime
  import opened Models
  import opened Text

  datatype Status = Pending | Approved | Rejected | Expired
  datatype Risk = Read | Write | ExternalSend | Destructive

  /** `arguments` is the canonical text, which also stands for its digest. Times are microseconds. */
  datatype Record = Record(
    id: nat, requester: Identity, toolName: string, arguments: string, risk: Risk, key: Option<string>,
    requestedAt: int, expiresAt: int, status: Status, approver: Option<string>, decidedAt: Option<int>)

  /** `_hash_token`: nothing for an absent or oversized token, else an injective digest. */
  function HashToken(token: string): string {
    if token == "" || |token| > 512 then "" else "sha256:" + token
  }

  predicate GoodToken(token: string) {
    token != "" && |token| <= 512
  }

  lemma HashInjective(a: string, b: string)
    requires GoodToken(a) && HashToken(a) == HashToken(b)
    ensures a == b
  {
    assert HashToken(a)[7..] == a;
    if GoodToken(b) { assert HashToken(b)[7..] == b; }
  }

  // ---------------------------------------------------------------- stores

  /** A table row: the record and its token hash column. */
  datatype Row = Row(record: Record, hash: Option<string>)

  /** The in-memory store keeps two dictionaries, the SQL stores one row per approval. Both are listed in
      insertion order. */
  datatype Store =
    | Memory(records: seq<Record>, hashes: map<nat, string>)
    | Sql(rows: seq<Row>)

  function Records(st: Store): (rs: seq<Record>)
    ensures st.Sql? ==> |rs| == |st.rows| && forall i :: 0 <= i < |rs| ==> rs[i] == st.rows[i].record
    ensures st.Memory? ==> rs == st.records
  {
    match st
    case Memory(records, _) => records
    case Sql(rows) => seq(|rows|, i requires 0 <= i < |rows| => rows[i].record)
  }

  predicate InScope(r: Record, workspace: string, tenant: string) {
    r.requester.workspaceId == workspace && r.requester.tenantId == tenant
  }

  predicate SameRequest(r: Record, workspace: string, tenant: string, user: string, key: string) {
    InScope(r, workspace, tenant) && r.requester.userId == user && r.key == Some(key)
  }

  /** The first position whose record satisfies `p`, or the length. */
  function IndexOf(rs: seq<Record>, p: Record -> bool): (i: nat)
    ensures i <= |rs|
    ensures i < |rs| ==> p(rs[i])
    ensures forall j :: 0 <= j < i ==> !p(rs[j])
  {
    if rs == [] then 0
    else if p(rs[0]) then 0
    else
      var k := IndexOf(rs[1..], p);
      assert forall j :: 0 < j < k + 1 ==> rs[j] == rs[1..][j - 1];
      k + 1
  }

  function HasId(id: nat): Record -> bool {
    (r: Record) => r.id == id
  }

  function IsRequest(workspace: string, tenant: string, user: string, key: string): Record -> bool {
    (r: Record) => SameRequest(r, workspace, tenant, user, key)
  }

  /** `get`. */
  function Get(st: Store, id: nat, workspace: string, tenant: string): Option<Record> {
    var rs := Records(st);
    var i := IndexOf(rs, HasId(id));
    if i < |rs| && InScope(rs[i], workspace, tenant) then Some(rs[i]) else None
  }

  /** `list`, as a set: the stores differ in order. */
  function List(st: Store, workspace: string, tenant: string, status: Option<Status>): set<Record> {
    set r <- Records(st) | InScope(r, workspace, tenant) && (status.None? || r.status == status.value)
  }

  /** `find_idempotent`. */
  function FindRequest(st: Store, workspace: string, tenant: string, user: string, key: string): Option<Record> {
    var rs := Records(st);
    var i := IndexOf(rs, IsRequest(workspace, tenant, user, key));
    if i < |rs| then Some(rs[i]) else None
  }

  /** `create`; `None` when the id, or in SQL the request key, exists already. */
  function Create(st: Store, r: Record): Option<Store> {
    var rs := Records(st);
    if IndexOf(rs, HasId(r.id)) < |rs| then None
    else
      match st
      case Memory(records, hashes) => Some(Memory(records + [r], hashes))
      case Sql(rows) =>
        if r.key.Some? && FindRequest(st, r.requester.workspaceId, r.requester.tenantId, r.requester.userId, r.key.value).Some?
        then None else Some(Sql(rows + [Row(r, None)]))
  }

  function Decided(r: Record, status: Status, approver: Option<string>, at: int): Record {
    r.(status := status, approver := approver, decidedAt := Some(at))
  }

  /** `decide`: a compare-and-set from pending. An empty hash is not entered in the dictionary, where SQL
      overwrites its column in any case. */
  function Decide(st: Store, id: nat, workspace: string, tenant: string, status: Status, approver: Option<string>, at: int, hash: Option<string>)
    : (Store, Option<Record>)
  {
    var rs := Records(st);
    var i := IndexOf(rs, HasId(id));
    if i == |rs| || !InScope(rs[i], workspace, tenant) || rs[i].status != Pending then (st, None)
    else
      var r := Decided(rs[i], status, approver, at);
      match st
      case Memory(records, hashes) =>
        (Memory(records[i := r], if hash.Some? && hash.value != "" then hashes[id := hash.value] else hashes), Some(r))
      case Sql(rows) => (Sql(rows[i := Row(r, hash)]), Some(r))
  }

  /** `token_hash`. */
  function TokenHash(st: Store, id: nat, workspace: string, tenant: string): Option<string> {
    var rs := Records(st);
    var i := IndexOf(rs, HasId(id));
    if i == |rs| || !InScope(rs[i], workspace, tenant) then None
    else
      match st
      case Memory(_, hashes) => if id in hashes then Some(hashes[id]) else None
      case Sql(rows) => if rows[i].hash.Some? && rows[i].hash.value != "" then rows[i].hash else None
  }

  // ---------------------------------------------------------------- the service

  datatype Error = Invalid | NotFound
  datatype Answer =
    | Failed(error: Error)
    | One(record: Record)
    | Granted(record: Record, token: string)
    | Many(records: set<Record>)
    | Truth(valid: bool)
    | Count(n: nat)

  /** Calls of the service, with the clock readings, ids and tokens they draw. */
  datatype Call =
    | Request(requester: Identity, toolName: string, arguments: string, risk: Risk, key: Option<string>, ttl: int, now: int, id: nat)
    | ListAll(who: Identity, status: Option<Status>)
    | Look(who: Identity, id: nat, now: int, at: int)
    | Approve(who: Identity, id: nat, now: int, at: int, token: string)
    | Reject(who: Identity, id: nat, now: int, at: int)
    | Verify(who: Identity, id: nat, now: int, at: int, token: string, toolName: string, arguments: string)
    | PendingCount(who: Identity, now: int)

  predicate FieldOk(s: string) {
    !Blank(s) && |s| <= 256
  }

  /** `_scope`. */
  predicate ScopeOk(i: Identity) {
    FieldOk(i.userId) && FieldOk(i.workspaceId) && FieldOk(i.tenantId) && FieldOk(i.role)
  }

  predicate MayDecide(i: Identity) {
    i.role == "admin" || i.role == "manager"
  }

  predicate RequestOk(c: Call)
    requires c.Request?
  {
    && ScopeOk(c.requester) && c.toolName != "" && |c.toolName| <= 256 && c.risk != Read
    && (c.key.Some? ==> !Blank(c.key.value) && |c.key.value| <= 200)
    && 60 <= c.ttl <= 86_400
  }

  /** `_arguments_digest` raises for longer ones. */
  predicate Digestible(arguments: string) {
    |arguments| <= 100_000
  }

  function NewRecord(c: Call): Record
    requires c.Request?
  {
    Record(c.id, c.requester, c.toolName, c.arguments, c.risk, c.key, c.now, c.now + SECOND * c.ttl, Pending, None, None)
  }

  /** `get` of the service, with its lazy expiry. */
  function Looked(st: Store, who: Identity, id: nat, now: int, at: int): (Store, Option<Record>) {
    match Get(st, id, who.workspaceId, who.tenantId)
    case None => (st, None)
    case Some(r) =>
      if r.status == Pending && r.expiresAt <= now then
        var (st', updated) := Decide(st, id, r.requester.workspaceId, r.requester.tenantId, Expired, None, at, None);
        (st', if updated.Some? then updated else Some(r))
      else (st, Some(r))
  }

  function Serve(st: Store, c: Call): (Store, Answer) {
    match c
    case Request(who, _, _, _, key, _, _, _) =>
      if !RequestOk(c) then (st, Failed(Invalid))
      else
        var existing := if key.Some? then FindRequest(st, who.workspaceId, who.tenantId, who.userId, key.value) else None;
        if existing.Some? then (st, One(existing.value))
        else if !Digestible(c.arguments) then (st, Failed(Invalid))
        else
          (match Create(st, NewRecord(c)) case None => (st, Failed(Invalid)) case Some(st') => (st', One(NewRecord(c))))
    case ListAll(who, status) =>
      if !ScopeOk(who) then (st, Failed(Invalid)) else (st, Many(List(st, who.workspaceId, who.tenantId, status)))
    case Look(who, id, now, at) =>
      if !ScopeOk(who) then (st, Failed(Invalid))
      else
        var (st', r) := Looked(st, who, id, now, at);
        (st', if r.Some? then One(r.value) else Failed(NotFound))
    case Approve(who, id, now, at, token) =>
      if !ScopeOk(who) || !MayDecide(who) then (st, Failed(Invalid))
      else
        var (st', r) := Looked(st, who, id, now, at);
        if r.None? then (st', Failed(NotFound))
        else if r.value.status != Pending then (st', Failed(Invalid))
        else
          var (st2, updated) := Decide(st', id, who.workspaceId, who.tenantId, Approved, Some(who.userId), at, Some(HashToken(token)));
          (st2, if updated.Some? then Granted(updated.value, token) else Failed(Invalid))
    case Reject(who, id, now, at) =>
      if !ScopeOk(who) || !MayDecide(who) then (st, Failed(Invalid))
      else
        var (st', r) := Looked(st, who, id, now, at);
        if r.None? then (st', Failed(NotFound))
        else if r.value.status != Pending then (st', Failed(Invalid))
        else
          var (st2, updated) := Decide(st', id, who.workspaceId, who.tenantId, Rejected, Some(who.userId), at, None);
          (st2, if updated.Some? then One(updated.value) else Failed(Invalid))
    case Verify(who, id, now, at, token, toolName, arguments) =>
      if !ScopeOk(who) then (st, Failed(Invalid))
      else
        var (st', r) := Looked(st, who, id, now, at);
        if r.None? then (st', Failed(NotFound))
        else if r.value.status != Approved || r.value.toolName != toolName then (st', Truth(false))
        else if !Digestible(arguments) then (st', Failed(Invalid))
        else (st', Truth(Verified(st', r.value, who, token, toolName, arguments)))
    case PendingCount(who, now) =>
      if !ScopeOk(who) then (st, Failed(Invalid))
      else (st, Count(|set r <- List(st, who.workspaceId, who.tenantId, Some(Pending)) | r.expiresAt > now|))
  }

  predicate Verified(st: Store, r: Record, who: Identity, token: string, toolName: string, arguments: string) {
    && r.status == Approved && r.toolName == toolName && r.arguments == arguments
    && TokenHash(st, r.id, who.workspaceId, who.tenantId) == Some(HashToken(token))
  }

  // ---------------------------------------------------------------- the two representations agree

  /** What sequential service histories keep true of the in-memory store. */
  predicate MemoryOk(records: seq<Record>, hashes: map<nat, string>) {
    && (forall i, j :: 0 <= i < j < |records| ==> records[i].id != records[j].id)
    && (forall i :: 0 <= i < |records| && records[i].status == Pending ==> records[i].id !in hashes)
    && (forall id <- hashes :: hashes[id] != "" && Known(records, id))
  }

  predicate Known(records: seq<Record>, id: nat) {
    exists i :: 0 <= i < |records| && records[i].id == id
  }

  /** Ids survive an update in place and an append. */
  lemma KnownKeeps(records: seq<Record>, more: seq<Record>)
    requires |records| <= |more| && forall i :: 0 <= i < |records| ==> more[i].id == records[i].id
    ensures forall id :: Known(records, id) ==> Known(more, id)
  {
    forall id | Known(records, id)
      ensures Known(more, id)
    {
      var i :| 0 <= i < |records| && records[i].id == id;
      assert more[i].id == id;
    }
  }

  /** The column of an approval is its dictionary entry. */
  function HashOf(hashes: map<nat, string>, id: nat): Option<string> {
    if id in hashes then Some(hashes[id]) else None
  }

  /** An in-memory and an SQL store hold the same approvals and token hashes. */
  predicate Alike(m: Store, s: Store) {
    && m.Memory? && s.Sql? && MemoryOk(m.records, m.hashes) && |m.records| == |s.rows|
    && forall i :: 0 <= i < |s.rows| ==> s.rows[i] == Row(m.records[i], HashOf(m.hashes, m.records[i].id))
  }

  lemma SameRecords(m: Store, s: Store)
    requires Alike(m, s)
    ensures Records(s) == m.records
  {}

  /** A pending record is decided in place in both representations; it had no hash before. */
  lemma UpdateAlike(m: Store, s: Store, i: nat, r: Record, hash: Option<string>)
    requires Alike(m, s) && i < |m.records| && m.records[i].status == Pending
    requires r.id == m.records[i].id && r.status != Pending && hash != Some("")
    ensures Alike(Memory(m.records[i := r], if hash.Some? then m.hashes[r.id := hash.value] else m.hashes), Sql(s.rows[i := Row(r, hash)]))
  {
    var records := m.records[i := r];
    KnownKeeps(m.records, records);
    assert records[i].id == r.id;
    assert Known(records, r.id);
    assert r.id !in m.hashes;
  }

  lemma DecideAlike(m: Store, s: Store, id: nat, workspace: string, tenant: string, status: Status, approver: Option<string>, at: int, hash: Option<string>)
    requires Alike(m, s) && status != Pending && hash != Some("")
    ensures var (m', a) := Decide(m, id, workspace, tenant, status, approver, at, hash);
            var (s', b) := Decide(s, id, workspace, tenant, status, approver, at, hash);
            a == b && Alike(m', s')
  {
    hide MemoryOk;
    SameRecords(m, s);
    var i := IndexOf(m.records, HasId(id));
    if i < |m.records| && InScope(m.records[i], workspace, tenant) && m.records[i].status == Pending {
      UpdateAlike(m, s, i, Decided(m.records[i], status, approver, at), hash);
    }
  }

  lemma CreateAlike(m: Store, s: Store, r: Record)
    requires Alike(m, s) && r.status == Pending
    requires r.key.Some? ==> FindRequest(m, r.requester.workspaceId, r.requester.tenantId, r.requester.userId, r.key.value).None?
    ensures Create(m, r).Some? <==> Create(s, r).Some?
    ensures Create(m, r).Some? ==> Alike(Create(m, r).value, Create(s, r).value)
  {
    SameRecords(m, s);
    if Create(m, r).Some? {
      KnownKeeps(m.records, m.records + [r]);
      assert !Known(m.records, r.id);
    }
  }

  lemma ReadsAlike(m: Store, s: Store)
    requires Alike(m, s)
    ensures forall id, workspace, tenant :: Get(m, id, workspace, tenant) == Get(s, id, workspace, tenant)
    ensures forall id, workspace, tenant :: TokenHash(m, id, workspace, tenant) == TokenHash(s, id, workspace, tenant)
    ensures forall workspace, tenant, status :: List(m, workspace, tenant, status) == List(s, workspace, tenant, status)
    ensures forall workspace, tenant, user, key :: FindRequest(m, workspace, tenant, user, key) == FindRequest(s, workspace, tenant, user, key)
  {
    SameRecords(m, s);
  }

  lemma LookedAlike(m: Store, s: Store, who: Identity, id: nat, now: int, at: int)
    requires Alike(m, s)
    ensures var (m', a) := Looked(m, who, id, now, at);
            var (s', b) := Looked(s, who, id, now, at);
            a == b && Alike(m', s')
  {
    hide Alike, Get, Decide, TokenHash, List, FindRequest;
    ReadsAlike(m, s);
    var r := Get(m, id, who.workspaceId, who.tenantId);
    if r.Some? { DecideAlike(m, s, id, r.value.requester.workspaceId, r.value.requester.tenantId, Expired, None, at, None); }
  }

  /** Tokens come from a generator that never returns an empty or oversized one. */
  predicate Drawable(c: Call) {
    c.Approve? ==> GoodToken(c.token)
  }

  /** One service call gets the same answer from both representations and keeps them alike. */
  lemma ServeAlike(m: Store, s: Store, c: Call)
    requires Alike(m, s) && Drawable(c)
    ensures Serve(m, c).1 == Serve(s, c).1
    ensures Alike(Serve(m, c).0, Serve(s, c).0)
  {
    hide Alike, Get, Decide, Create, TokenHash, List, FindRequest, Looked, ScopeOk, RequestOk;
    ReadsAlike(m, s);
    match c
    case Request(_, _, _, _, _, _, _, _) =>
      if RequestOk(c) { RequestAlike(m, s, c); }
    case Look(who, id, now, at) => LookedAlike(m, s, who, id, now, at);
    case Approve(who, id, now, at, token) =>
      LookedAlike(m, s, who, id, now, at);
      DecideAlike(Looked(m, who, id, now, at).0, Looked(s, who, id, now, at).0, id, who.workspaceId, who.tenantId, Approved, Some(who.userId), at, Some(HashToken(token)));
    case Reject(who, id, now, at) =>
      LookedAlike(m, s, who, id, now, at);
      DecideAlike(Looked(m, who, id, now, at).0, Looked(s, who, id, now, at).0, id, who.workspaceId, who.tenantId, Rejected, Some(who.userId), at, None);
    case Verify(who, id, now, at, token, toolName, arguments) =>
      LookedAlike(m, s, who, id, now, at);
      ReadsAlike(Looked(m, who, id, now, at).0, Looked(s, who, id, now, at).0);
    case _ =>
  }

  lemma RequestAlike(m: Store, s: Store, c: Call)
    requires Alike(m, s) && c.Request? && RequestOk(c)
    ensures Serve(m, c).1 == Serve(s, c).1
    ensures Alike(Serve(m, c).0, Serve(s, c).0)
  {
    hide Alike, Create, FindRequest, RequestOk;
    ReadsAlike(m, s);
    if c.key.None? || FindRequest(m, c.requester.workspaceId, c.requester.tenantId, c.requester.userId, c.key.value).None? {
      CreateAlike(m, s, NewRecord(c));
    }
  }

  /** The answers to a whole history of calls. */
  function Answers(st: Store, calls: seq<Call>): seq<Answer>
    decreases |calls|
  {
    if calls == [] then [] else [Serve(st, calls[0]).1] + Answers(Serve(st, calls[0]).0, calls[1..])
  }

  /** Every sequential history of service calls is answered alike by the in-memory and the SQL stores. */
  lemma {:induction false} HistoriesAlike(m: Store, s: Store, calls: seq<Call>)
    requires Alike(m, s) && forall c <- calls :: Drawable(c)
    ensures Answers(m, calls) == Answers(s, calls)
    decreases |calls|
  {
    hide Alike, Serve;
    if calls != [] {
      ServeAlike(m, s, calls[0]);
      HistoriesAlike(Serve(m, calls[0]).0, Serve(s, calls[0]).0, calls[1..]);
    }
  }

  lemma EmptyAlike()
    ensures Alike(Memory([], map[]), Sql([]))
  {}

  /** Without the service's lookup the stores part: of two racing requests with one key, SQL refuses the
      second, where the in-memory store keeps both. */
  lemma RacingRequestsDiffer(m: Store, s: Store, r: Record)
    requires Alike(m, s) && r.status == Pending && r.key.Some?
    requires IndexOf(m.records, HasId(r.id)) == |m.records|
    requires FindRequest(m, r.requester.workspaceId, r.requester.tenantId, r.requester.userId, r.key.value).Some?
    ensures Create(m, r).Some? && Create(s, r).None?
  {
    SameRecords(m, s);
  }
}
