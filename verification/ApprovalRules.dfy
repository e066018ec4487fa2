/** Who may decide what, who sees what, and which requests are kept: the rules of the approval service, over
    every history of calls. */
module ApprovalRules {
  import opened IsoTime
  import opened Models
  import opened Text
  import opened Approvals
  import opened ApprovalRuns

  predicate Named(i: Identity) {
    && !Blank(i.userId) && |i.userId| <= 256 && !Blank(i.workspaceId) && |i.workspaceId| <= 256
    && !Blank(i.tenantId) && |i.tenantId| <= 256 && !Blank(i.role) && |i.role| <= 256
  }

  predicate Sees(i: Identity, r: Record) {
    r.requester.workspaceId == i.workspaceId && r.requester.tenantId == i.tenantId
  }

  // ---------------------------------------------------------------- decisions

  /** This call decided the record: an approve or reject by an approver of the record's own workspace and
      tenant, who is entered as its approver. */
  predicate DecidedBy(r: Record, c: Call) {
    && (c.Approve? || c.Reject?) && c.id == r.id
    && (r.status == Approved <==> c.Approve?)
    && (c.who.role == "admin" || c.who.role == "manager")
    && c.who.workspaceId == r.requester.workspaceId && c.who.tenantId == r.requester.tenantId
    && r.approver == Some(c.who.userId) && r.decidedAt == Some(c.at)
  }

  predicate Final(r: Record) {
    r.status == Approved || r.status == Rejected
  }

  /** A store's decision changes one pending record in scope, or nothing. */
  lemma DecideRecords(st: Store, id: nat, workspace: string, tenant: string, status: Status, approver: Option<string>, at: int, hash: Option<string>)
    ensures var (st', updated) := Decide(st, id, workspace, tenant, status, approver, at, hash);
            var rs := Records(st);
            var i := IndexOf(rs, HasId(id));
            if updated.None? then st' == st
            else i < |rs| && rs[i].id == id && InScope(rs[i], workspace, tenant) && rs[i].status == Pending
                 && updated.value == Decided(rs[i], status, approver, at) && Records(st') == rs[i := updated.value]
  {
    var rs := Records(st);
    var i := IndexOf(rs, HasId(id));
    if i < |rs| { assert HasId(id)(rs[i]); }
    var st' := Decide(st, id, workspace, tenant, status, approver, at, hash).0;
    if i < |rs| && InScope(rs[i], workspace, tenant) && rs[i].status == Pending {
      assert Records(st') == rs[i := Decided(rs[i], status, approver, at)];
    }
  }

  /** A look changes at most one record, which it marks as expired. */
  lemma LookedRecords(st: Store, who: Identity, id: nat, now: int, at: int)
    ensures var (st', r) := Looked(st, who, id, now, at);
            && |Records(st')| == |Records(st)|
            && (forall k :: 0 <= k < |Records(st)| ==> Records(st')[k] == Records(st)[k] || Records(st')[k] == Decided(Records(st)[k], Expired, None, at))
            && (r.Some? ==> Sees(who, r.value) && r.value.id == id)
            && (r.Some? && r.value.status == Pending ==> st' == st && Get(st, id, who.workspaceId, who.tenantId) == r && now < r.value.expiresAt)
  {
    hide Decide;
    GotRecord(st, id, who);
    match Get(st, id, who.workspaceId, who.tenantId)
    case None =>
    case Some(r) => DecideGot(st, id, who, r, Expired, None, at, None);
  }

  /** A pending record that was got is decided. */
  lemma DecideGot(st: Store, id: nat, who: Identity, r: Record, status: Status, approver: Option<string>, at: int, hash: Option<string>)
    requires Get(st, id, who.workspaceId, who.tenantId) == Some(r)
    ensures Decide(st, id, r.requester.workspaceId, r.requester.tenantId, status, approver, at, hash) ==
            Decide(st, id, who.workspaceId, who.tenantId, status, approver, at, hash)
    ensures var (st', updated) := Decide(st, id, who.workspaceId, who.tenantId, status, approver, at, hash);
            && |Records(st')| == |Records(st)|
            && updated == (if r.status == Pending then Some(Decided(r, status, approver, at)) else None)
            && forall k :: 0 <= k < |Records(st)| ==> Records(st')[k] == Records(st)[k] || Records(st')[k] == Decided(Records(st)[k], status, approver, at)
  {
    DecideRecords(st, id, who.workspaceId, who.tenantId, status, approver, at, hash);
  }

  lemma GotRecord(st: Store, id: nat, who: Identity)
    ensures var r := Get(st, id, who.workspaceId, who.tenantId);
            r.Some? ==> r.value in Records(st) && r.value.id == id && Sees(who, r.value)
  {
    var rs := Records(st);
    var i := IndexOf(rs, HasId(id));
    if i < |rs| { assert HasId(id)(rs[i]); }
  }

  /** One call: whatever is approved or rejected after it was so before, or this call decided it. */
  lemma CallDecides(st: Store, c: Call, i: nat)
    requires i < |Records(Serve(st, c).0)| && Final(Records(Serve(st, c).0)[i])
    ensures (i < |Records(st)| && Records(st)[i] == Records(Serve(st, c).0)[i]) || DecidedBy(Records(Serve(st, c).0)[i], c)
  {
    hide Decide, Looked, Get, ScopeOk, MayDecide, FindRequest, Create, RequestOk, Verified, Digestible, List, HashToken, DecidedBy;
    match c
    case Request(_, _, _, _, _, _, _, _) => CreatedRecords(st, NewRecord(c));
    case Look(who, id, now, at) => LookedRecords(st, who, id, now, at);
    case Verify(who, id, now, at, _, _, _) => LookedRecords(st, who, id, now, at);
    case Approve(who, id, now, at, token) => DecidesOne(st, c, Some(HashToken(token)), i);
    case Reject(who, id, now, at) => DecidesOne(st, c, None, i);
    case _ =>
  }

  lemma DecidesOne(st: Store, c: Call, hash: Option<string>, i: nat)
    requires c.Approve? || c.Reject?
    ensures var looked := Looked(st, c.who, c.id, c.now, c.at).0;
            var decided := Decide(looked, c.id, c.who.workspaceId, c.who.tenantId, if c.Approve? then Approved else Rejected, Some(c.who.userId), c.at, hash).0;
            && |Records(decided)| == |Records(looked)| == |Records(st)|
            && (i < |Records(st)| && Final(Records(looked)[i]) ==> Records(looked)[i] == Records(st)[i])
            && (i < |Records(st)| && Final(Records(decided)[i]) && MayDecide(c.who) ==> Records(decided)[i] == Records(st)[i] || DecidedBy(Records(decided)[i], c))
  {
    hide Decide, Looked, HashToken;
    var who := c.who;
    LookedRecords(st, who, c.id, c.now, c.at);
    DecideRecords(Looked(st, who, c.id, c.now, c.at).0, c.id, who.workspaceId, who.tenantId,
                  if c.Approve? then Approved else Rejected, Some(who.userId), c.at, hash);
  }

  lemma CreatedRecords(st: Store, r: Record)
    ensures Create(st, r).Some? ==> Records(Create(st, r).value) == Records(st) + [r]
    ensures Create(st, r).Some? ==> forall k :: 0 <= k < |Records(st)| ==> Records(st)[k].id != r.id
  {
    if Create(st, r).Some? {
      forall k | 0 <= k < |Records(st)| ensures Records(st)[k].id != r.id { assert !HasId(r.id)(Records(st)[k]); }
      assert Records(Create(st, r).value) == Records(st) + [r];
    }
  }

  /** In every history each approved or rejected record was decided by a call of that history, made by an
      admin or manager of the record's workspace and tenant. */
  lemma {:induction false} OnlyApproversDecide(st: Store, calls: seq<Call>, i: nat) returns (k: nat)
    requires Records(st) == [] && i < |Records(Stored(st, calls))| && Final(Records(Stored(st, calls))[i])
    ensures k < |calls| && DecidedBy(Records(Stored(st, calls))[i], calls[k])
    decreases |calls|
  {
    hide Serve, DecidedBy;
    k := 0;
    if calls != [] {
      var front := calls[..|calls| - 1];
      CallDecides(Stored(st, front), calls[|calls| - 1], i);
      if DecidedBy(Records(Stored(st, calls))[i], calls[|calls| - 1]) {
        k := |calls| - 1;
      } else {
        k := OnlyApproversDecide(st, front, i);
      }
    }
  }

  /** Any other role is refused, and nothing changes. */
  lemma OtherRolesAreRefused(st: Store, c: Call)
    requires (c.Approve? || c.Reject?) && c.who.role != "admin" && c.who.role != "manager"
    ensures Serve(st, c) == (st, Failed(Invalid))
  {}

  /** An approve or reject call goes through exactly for an approver with a complete identity who sees a
      pending record with that id before its expiry; nothing else of the record changes. */
  lemma DecisionGoesThroughIff(st: Store, c: Call)
    requires c.Approve? || c.Reject?
    ensures var seen := Get(st, c.id, c.who.workspaceId, c.who.tenantId);
            var passes := && (c.who.role == "admin" || c.who.role == "manager") && Named(c.who)
                          && seen.Some? && seen.value.status == Pending && c.now < seen.value.expiresAt;
            && (Serve(st, c).1.One? || Serve(st, c).1.Granted? <==> passes)
            && (passes ==>
                  var r := seen.value.(status := if c.Approve? then Approved else Rejected, approver := Some(c.who.userId), decidedAt := Some(c.at));
                  Serve(st, c).1 == if c.Approve? then Granted(r, c.token) else One(r))
  {
    hide Decide, Get;
    var who := c.who;
    match Get(st, c.id, who.workspaceId, who.tenantId)
    case None =>
    case Some(r) =>
      GotRecord(st, c.id, who);
      DecideGot(st, c.id, who, r, Expired, None, c.at, None);
      if c.Approve? {
        DecideGot(st, c.id, who, r, Approved, Some(who.userId), c.at, Some(HashToken(c.token)));
      } else {
        DecideGot(st, c.id, who, r, Rejected, Some(who.userId), c.at, None);
      }
  }

  // ---------------------------------------------------------------- requests

  /** What is kept is a request by a complete identity, for a tool that does more than read, with bounded
      arguments and key, to be decided within a minute to a day. */
  predicate Sound(r: Record) {
    && Named(r.requester) && r.toolName != "" && |r.toolName| <= 256 && r.risk != Read
    && |r.arguments| <= 100_000
    && (r.key.Some? ==> !Blank(r.key.value) && |r.key.value| <= 200)
    && 60_000_000 <= r.expiresAt - r.requestedAt <= 86_400_000_000
  }

  /** The same user asks for the same thing. */
  predicate Repeats(r: Record, q: Record) {
    && r.key.Some? && r.key == q.key
    && r.requester.workspaceId == q.requester.workspaceId && r.requester.tenantId == q.requester.tenantId && r.requester.userId == q.requester.userId
  }

  predicate AllSound(rs: seq<Record>) {
    && (forall i :: 0 <= i < |rs| ==> Sound(rs[i]))
    && (forall i, j :: 0 <= i < j < |rs| ==> !Repeats(rs[i], rs[j]) && rs[i].id != rs[j].id)
  }

  /** Only what a decision enters has changed. */
  predicate SameRequests(rs: seq<Record>, more: seq<Record>) {
    && |rs| == |more|
    && forall k :: 0 <= k < |rs| ==> more[k] == rs[k].(status := more[k].status, approver := more[k].approver, decidedAt := more[k].decidedAt)
  }

  lemma SoundStays(rs: seq<Record>, more: seq<Record>)
    requires AllSound(rs) && SameRequests(rs, more)
    ensures AllSound(more)
  {
    hide Sound, Repeats;
    forall i | 0 <= i < |more|
      ensures Sound(more[i])
    {
      SoundAlike(rs[i], more[i]);
    }
    forall i, j | 0 <= i < j < |more|
      ensures !Repeats(more[i], more[j]) && more[i].id != more[j].id
    {
      RepeatsAlike(rs[i], more[i], rs[j], more[j]);
    }
  }

  lemma SoundAlike(r: Record, q: Record)
    requires Sound(r) && q == r.(status := q.status, approver := q.approver, decidedAt := q.decidedAt)
    ensures Sound(q)
  {
    hide Named;
  }

  lemma RepeatsAlike(r: Record, r': Record, q: Record, q': Record)
    requires r' == r.(status := r'.status, approver := r'.approver, decidedAt := r'.decidedAt)
    requires q' == q.(status := q'.status, approver := q'.approver, decidedAt := q'.decidedAt)
    ensures Repeats(r', q') <==> Repeats(r, q)
  {}

  lemma SoundGrows(rs: seq<Record>, r: Record)
    requires AllSound(rs) && Sound(r) && forall q <- rs :: !Repeats(q, r) && q.id != r.id
    ensures AllSound(rs + [r])
  {
    hide Sound, Repeats;
  }

  /** Every call but a new request changes decisions only. */
  lemma ServeKeepsRequests(st: Store, c: Call)
    requires !c.Request?
    ensures SameRequests(Records(st), Records(Serve(st, c).0))
  {
    hide Decide, Looked, Get, ScopeOk, MayDecide, Verified, Digestible, List, HashToken, SameRequests;
    SameAgain(Records(st));
    match c
    case Look(_, _, _, _) => LookKeeps(st, c);
    case Verify(_, _, _, _, _, _, _) => LookKeeps(st, c);
    case Approve(_, _, _, _, token) => DecisionKeeps(st, c, Some(HashToken(token)));
    case Reject(_, _, _, _) => DecisionKeeps(st, c, None);
    case _ =>
  }

  lemma SameAgain(rs: seq<Record>)
    ensures SameRequests(rs, rs)
  {}

  lemma LookKeeps(st: Store, c: Call)
    requires c.Look? || c.Verify? || c.Approve? || c.Reject?
    ensures SameRequests(Records(st), Records(Looked(st, c.who, c.id, c.now, c.at).0))
  {
    hide Looked;
    LookedRecords(st, c.who, c.id, c.now, c.at);
  }

  lemma DecisionKeeps(st: Store, c: Call, hash: Option<string>)
    requires c.Approve? || c.Reject?
    ensures SameRequests(Records(st), Records(Looked(st, c.who, c.id, c.now, c.at).0))
    ensures var looked := Looked(st, c.who, c.id, c.now, c.at).0;
            var status := if c.Approve? then Approved else Rejected;
            SameRequests(Records(st), Records(Decide(looked, c.id, c.who.workspaceId, c.who.tenantId, status, Some(c.who.userId), c.at, hash).0))
  {
    hide Decide, Looked;
    LookKeeps(st, c);
    DecideRecords(Looked(st, c.who, c.id, c.now, c.at).0, c.id, c.who.workspaceId, c.who.tenantId,
                  if c.Approve? then Approved else Rejected, Some(c.who.userId), c.at, hash);
  }

  lemma ServeSound(st: Store, c: Call)
    requires AllSound(Records(st))
    ensures AllSound(Records(Serve(st, c).0))
  {
    if c.Request? {
      RequestSound(st, c);
    } else {
      ServeKeepsRequests(st, c);
      SoundStays(Records(st), Records(Serve(st, c).0));
    }
  }

  lemma RequestSound(st: Store, c: Call)
    requires AllSound(Records(st)) && c.Request?
    ensures AllSound(Records(Serve(st, c).0))
  {
    hide FindRequest, Create, RequestOk, AllSound, Sound, Digestible;
    if RequestOk(c) && Digestible(c.arguments) {
      NewIsSound(c);
      CreatedRecords(st, NewRecord(c));
      if c.key.Some? { NotFoundIsNew(st, c.requester, c.key.value); }
      if Records(Serve(st, c).0) != Records(st) { SoundGrows(Records(st), NewRecord(c)); }
    }
  }

  lemma NewIsSound(c: Call)
    requires c.Request? && RequestOk(c) && Digestible(c.arguments)
    ensures Sound(NewRecord(c))
  {}

  lemma NotFoundIsNew(st: Store, who: Identity, key: string)
    ensures FindRequest(st, who.workspaceId, who.tenantId, who.userId, key).None? ==>
            forall r <- Records(st) ::
              !(r.key == Some(key) && r.requester.workspaceId == who.workspaceId && r.requester.tenantId == who.tenantId
                && r.requester.userId == who.userId)
  {
    var rs := Records(st);
    if FindRequest(st, who.workspaceId, who.tenantId, who.userId, key).None? {
      forall k | 0 <= k < |rs| ensures !SameRequest(rs[k], who.workspaceId, who.tenantId, who.userId, key) {
        assert !IsRequest(who.workspaceId, who.tenantId, who.userId, key)(rs[k]);
      }
    }
  }

  /** In every history the store keeps only sound requests, and no user's key twice. */
  lemma {:induction false} OnlySoundRequestsAreKept(st: Store, calls: seq<Call>)
    requires Records(st) == []
    ensures AllSound(Records(Stored(st, calls)))
    decreases |calls|
  {
    hide Serve;
    if calls != [] {
      var front := calls[..|calls| - 1];
      OnlySoundRequestsAreKept(st, front);
      hide AllSound;
      ServeSound(Stored(st, front), calls[|calls| - 1]);
    }
  }

  /** And it keeps every sound request whose id and key are new, as it was made. */
  lemma SoundRequestsAreKept(st: Store, c: Call)
    requires c.Request?
    requires var r := Record(c.id, c.requester, c.toolName, c.arguments, c.risk, c.key, c.now, c.now + 1_000_000 * c.ttl, Pending, None, None);
             Sound(r) && forall q <- Records(st) :: !Repeats(r, q) && q.id != r.id
    ensures var r := Record(c.id, c.requester, c.toolName, c.arguments, c.risk, c.key, c.now, c.now + 1_000_000 * c.ttl, Pending, None, None);
            Serve(st, c).1 == One(r) && Records(Serve(st, c).0) == Records(st) + [r]
  {
    var rs := Records(st);
    assert IndexOf(rs, HasId(c.id)) == |rs|;
    if c.key.Some? {
      assert FindRequest(st, c.requester.workspaceId, c.requester.tenantId, c.requester.userId, c.key.value).None?;
    }
    CreatedRecords(st, NewRecord(c));
    hide IndexOf;
  }

  // ---------------------------------------------------------------- what callers see

  /** What a call may answer: no record of another workspace or tenant; a listing of all that are asked for;
      the number of all that are pending before their expiry. */
  predicate AnswerInScope(st: Store, c: Call, a: Answer) {
    match c
    case Request(who, _, _, _, _, _, _, _) => a.One? ==> Sees(who, a.record) && a.record.requester.userId == who.userId && a.record.key == c.key
    case ListAll(who, status) =>
      a.Many? ==> a.records == set r <- Records(st) | Sees(who, r) && (status.None? || r.status == status.value)
    case PendingCount(who, now) =>
      a.Count? ==> a.n == |set r <- Records(st) | Sees(who, r) && r.status == Pending && now < r.expiresAt|
    case _ => a.One? || a.Granted? ==> Sees(c.who, a.record) && a.record.id == c.id
  }

  lemma AnswersAreInScope(st: Store, c: Call)
    ensures AnswerInScope(st, c, Serve(st, c).1)
  {
    hide Looked, Decide, Get, ScopeOk, MayDecide, RequestOk, Create;
    match c
    case Request(who, _, _, _, key, _, _, _) => if key.Some? { FoundRequest(st, who, key.value); } hide FindRequest;
    case PendingCount(who, now) =>
      assert (set r <- List(st, who.workspaceId, who.tenantId, Some(Pending)) | r.expiresAt > now)
          == (set r <- Records(st) | Sees(who, r) && r.status == Pending && now < r.expiresAt);
    case Look(who, id, now, at) => LookedRecords(st, who, id, now, at);
    case Approve(_, _, _, _, _) => DecisionInScope(st, c);
    case Reject(_, _, _, _) => DecisionInScope(st, c);
    case _ =>
  }

  lemma DecisionInScope(st: Store, c: Call)
    requires c.Approve? || c.Reject?
    ensures AnswerInScope(st, c, Serve(st, c).1)
  {
    hide Serve, Get;
    DecisionGoesThroughIff(st, c);
    GotRecord(st, c.id, c.who);
  }

  /** A token verifies exactly against an approved record that the caller sees, for the tool and the arguments
      that were requested, by its stored hash. */
  lemma VerifiesIff(st: Store, c: Call)
    requires c.Verify?
    ensures var seen := Get(st, c.id, c.who.workspaceId, c.who.tenantId);
            Serve(st, c).1 == Truth(true) <==>
            && Named(c.who) && |c.arguments| <= 100_000
            && seen.Some? && seen.value.status == Approved && seen.value.toolName == c.toolName && seen.value.arguments == c.arguments
            && TokenHash(st, c.id, c.who.workspaceId, c.who.tenantId) == Some(HashToken(c.token))
  {
    hide Decide, Get, TokenHash, HashToken;
    GotRecord(st, c.id, c.who);
    if Get(st, c.id, c.who.workspaceId, c.who.tenantId).Some? {
      DecideGot(st, c.id, c.who, Get(st, c.id, c.who.workspaceId, c.who.tenantId).value, Expired, None, c.at, None);
    }
  }

  lemma FoundRequest(st: Store, who: Identity, key: string)
    ensures var r := FindRequest(st, who.workspaceId, who.tenantId, who.userId, key);
            r.Some? ==> Sees(who, r.value) && r.value.requester.userId == who.userId && r.value.key == Some(key)
  {
    var rs := Records(st);
    var i := IndexOf(rs, IsRequest(who.workspaceId, who.tenantId, who.userId, key));
    if i < |rs| { assert IsRequest(who.workspaceId, who.tenantId, who.userId, key)(rs[i]); }
  }
}
