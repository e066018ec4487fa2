/** The in-memory approval store, with the dictionaries it updates, and the service on top of it, as the
    imperative programs that module Approvals specifies. */
module ApprovalService {
  import opened IsoTime
  import opened Models
  import opened Approvals
  import opened ApprovalRuns
  import Rules = ApprovalRules

  predicate Picks(r: Record, workspace: string, tenant: string, status: Option<Status>) {
    InScope(r, workspace, tenant) && (status.None? || r.status == status.value)
  }

  /** The records that `list` picks, in their order. */
  function Selected(rs: seq<Record>, workspace: string, tenant: string, status: Option<Status>): seq<Record> {
    if rs == [] then []
    else
      var last := rs[|rs| - 1];
      Selected(rs[..|rs| - 1], workspace, tenant, status) + if Picks(last, workspace, tenant, status) then [last] else []
  }

  lemma {:induction false} SelectedOnly(rs: seq<Record>, workspace: string, tenant: string, status: Option<Status>, r: Record)
    ensures r in Selected(rs, workspace, tenant, status) <==> r in rs && Picks(r, workspace, tenant, status)
  {
    hide Picks;
    if rs != [] {
      var front, last := rs[..|rs| - 1], rs[|rs| - 1];
      SelectedOnly(front, workspace, tenant, status, r);
      assert rs == front + [last];
    }
  }

  /** Across the two representations a listing is compared as a set. */
  lemma SelectedIsList(m: Store, workspace: string, tenant: string, status: Option<Status>)
    ensures (set r <- Selected(Records(m), workspace, tenant, status)) == List(m, workspace, tenant, status)
  {
    forall r
      ensures r in Selected(Records(m), workspace, tenant, status) <==> r in List(m, workspace, tenant, status)
    {
      SelectedOnly(Records(m), workspace, tenant, status, r);
    }
  }

  lemma DecideInMemory(rs: seq<Record>, hashes: map<nat, string>, id: nat, workspace: string, tenant: string,
                       status: Status, approver: Option<string>, at: int, hash: Option<string>)
    ensures var i := IndexOf(rs, HasId(id));
            Approvals.Decide(Memory(rs, hashes), id, workspace, tenant, status, approver, at, hash) ==
            if i == |rs| || !InScope(rs[i], workspace, tenant) || rs[i].status != Pending then (Memory(rs, hashes), None)
            else (Memory(rs[i := Decided(rs[i], status, approver, at)],
                         if hash.Some? && hash.value != "" then hashes[id := hash.value] else hashes),
                  Some(Decided(rs[i], status, approver, at)))
  {
    hide IndexOf;
  }

  lemma DecidedId(r: Record, status: Status, approver: Option<string>, at: int)
    ensures Decided(r, status, approver, at).id == r.id
  {}

  class InMemoryApprovalStore {
    /** A dictionary and the order in which it yields its values. */
    var records: map<nat, Record>
    var order: seq<nat>
    var tokenHashes: map<nat, string>

    ghost predicate Valid()
      reads this
    {
      && (forall i :: 0 <= i < |order| ==> order[i] in records)
      && (forall i, j :: 0 <= i < j < |order| ==> order[i] != order[j])
      && (forall id <- records :: id in order && records[id].id == id)
    }

    function Values(): (rs: seq<Record>)
      requires forall i :: 0 <= i < |order| ==> order[i] in records
      reads this
    {
      seq(|order|, i requires 0 <= i < |order| reads this requires order[i] in records => records[order[i]])
    }

    ghost function View(): Store
      requires Valid()
      reads this
    {
      Memory(Values(), tokenHashes)
    }

    constructor ()
      ensures Valid() && View() == Memory([], map[])
    {
      records, order, tokenHashes := map[], [], map[];
    }

    /** Where a record is in the order, and that its id leads to it. */
    lemma Position(id: nat)
      requires Valid()
      ensures var i := IndexOf(Values(), HasId(id)); i < |order| <==> id in records
      ensures var i := IndexOf(Values(), HasId(id)); i < |order| ==> order[i] == id && Values()[i] == records[id]
    {
      hide IndexOf;
      var i := IndexOf(Values(), HasId(id));
      if id in records {
        var k: nat :| k < |order| && order[k] == id;
        assert HasId(id)(Values()[k]);
      }
      if i < |order| {
        assert HasId(id)(Values()[i]);
      }
    }

    /** False stands for the exception. */
    method Create(r: Record) returns (ok: bool)
      requires Valid()
      modifies this
      ensures Valid() && Approvals.Create(old(View()), r) == if ok then Some(View()) else None
      ensures !ok ==> View() == old(View())
    {
      Position(r.id);
      ok := r.id !in records;
      if ok {
        ghost var before := Values();
        records := records[r.id := r];
        order := order + [r.id];
        assert Values() == before + [r];
      }
    }

    method Get(id: nat, workspace: string, tenant: string) returns (r: Option<Record>)
      requires Valid()
      ensures r == Approvals.Get(View(), id, workspace, tenant)
    {
      Position(id);
      if id !in records || !InScope(records[id], workspace, tenant) {
        return None;
      }
      return Some(records[id]);
    }

    method List(workspace: string, tenant: string, status: Option<Status>) returns (rs: seq<Record>)
      requires Valid()
      ensures rs == Selected(Values(), workspace, tenant, status)
      ensures (set r <- rs) == Approvals.List(View(), workspace, tenant, status)
    {
      hide Picks, Approvals.List;
      rs := [];
      for i := 0 to |order|
        invariant rs == Selected(Values()[..i], workspace, tenant, status)
      {
        var r := records[order[i]];
        assert Values()[..i + 1] == Values()[..i] + [r];
        if Picks(r, workspace, tenant, status) {
          rs := rs + [r];
        }
      }
      assert Values()[..|order|] == Values();
      SelectedIsList(View(), workspace, tenant, status);
    }

    method FindIdempotent(workspace: string, tenant: string, user: string, key: string) returns (r: Option<Record>)
      requires Valid()
      ensures r == FindRequest(View(), workspace, tenant, user, key)
    {
      ghost var first := IndexOf(Values(), IsRequest(workspace, tenant, user, key));
      for i := 0 to |order|
        invariant i <= first
      {
        assert Values()[i] == records[order[i]];
        if SameRequest(records[order[i]], workspace, tenant, user, key) {
          assert IsRequest(workspace, tenant, user, key)(Values()[i]);
          return Some(records[order[i]]);
        }
        assert !IsRequest(workspace, tenant, user, key)(Values()[i]);
      }
      return None;
    }

    method Decide(id: nat, workspace: string, tenant: string, status: Status, approver: Option<string>, at: int, hash: Option<string>)
      returns (r: Option<Record>)
      requires Valid()
      modifies this
      ensures Valid() && (View(), r) == Approvals.Decide(old(View()), id, workspace, tenant, status, approver, at, hash)
    {
      hide IndexOf, Approvals.Decide, Decided;
      Position(id);
      ghost var i, before := IndexOf(Values(), HasId(id)), Values();
      DecideInMemory(before, tokenHashes, id, workspace, tenant, status, approver, at, hash);
      if id !in records || !InScope(records[id], workspace, tenant) || records[id].status != Pending {
        return None;
      }
      var updated := Decided(records[id], status, approver, at);
      DecidedId(records[id], status, approver, at);
      records := records[id := updated];
      if hash.Some? && hash.value != "" {
        tokenHashes := tokenHashes[id := hash.value];
      }
      assert Values() == before[i := updated];
      return Some(updated);
    }

    method TokenHash(id: nat, workspace: string, tenant: string) returns (r: Option<string>)
      requires Valid()
      ensures r == Approvals.TokenHash(View(), id, workspace, tenant)
    {
      Position(id);
      if id !in records || !InScope(records[id], workspace, tenant) || id !in tokenHashes {
        return None;
      }
      return Some(tokenHashes[id]);
    }
  }

  const Empty := Memory([], map[])

  /** Each method is one service call; its answer and the store it leaves are those of `Serve`. The store is
      always that of the history of calls, which module ApprovalRuns shows to be a run of the protocol. */
  class ApprovalService {
    const store: InMemoryApprovalStore
    ghost var calls: seq<Call>

    ghost predicate Valid()
      reads this, store
    {
      store.Valid() && store.View() == Stored(Empty, calls)
    }

    constructor (store: InMemoryApprovalStore)
      requires store.Valid() && store.View() == Empty
      ensures Valid() && this.store == store && calls == []
    {
      this.store, calls := store, [];
    }

    method Request(c: Call) returns (a: Answer)
      requires c.Request? && Valid()
      modifies this`calls, store
      ensures Valid() && calls == old(calls) + [c] && a == Serve(old(store.View()), c).1
    {
      hide Stored;
      StoredMore(Empty, calls, c);
      calls := calls + [c];
      if !RequestOk(c) {
        return Failed(Invalid);
      }
      if c.key.Some? {
        var existing := store.FindIdempotent(c.requester.workspaceId, c.requester.tenantId, c.requester.userId, c.key.value);
        if existing.Some? {
          return One(existing.value);
        }
      }
      if !Digestible(c.arguments) {
        return Failed(Invalid);
      }
      var ok := store.Create(NewRecord(c));
      return if ok then One(NewRecord(c)) else Failed(Invalid);
    }

    method Get(who: Identity, id: nat, now: int, at: int) returns (a: Answer)
      requires Valid()
      modifies this`calls, store
      ensures var c := Call.Look(who, id, now, at);
              Valid() && calls == old(calls) + [c] && a == Serve(old(store.View()), c).1
    {
      hide Looked, Approvals.Decide, Approvals.Get, ScopeOk, Stored;
      StoredMore(Empty, calls, Call.Look(who, id, now, at));
      calls := calls + [Call.Look(who, id, now, at)];
      if !ScopeOk(who) {
        return Failed(Invalid);
      }
      var r := Look(who, id, now, at);
      return if r.Some? then One(r.value) else Failed(NotFound);
    }

    /** The store's part of `get`, with the lazy expiry; `None` when there is no such record. */
    method Look(who: Identity, id: nat, now: int, at: int) returns (r: Option<Record>)
      requires store.Valid()
      modifies store
      ensures store.Valid() && (store.View(), r) == Looked(old(store.View()), who, id, now, at)
    {
      r := store.Get(id, who.workspaceId, who.tenantId);
      if r.Some? && r.value.status == Pending && r.value.expiresAt <= now {
        var updated := store.Decide(id, r.value.requester.workspaceId, r.value.requester.tenantId, Expired, None, at, None);
        r := if updated.Some? then updated else r;
      }
    }

    method Approve(who: Identity, id: nat, now: int, at: int, token: string) returns (a: Answer)
      requires Valid()
      modifies this`calls, store
      ensures var c := Call.Approve(who, id, now, at, token);
              Valid() && calls == old(calls) + [c] && a == Serve(old(store.View()), c).1
      ensures who.role != "admin" && who.role != "manager" ==> a == Failed(Invalid) && store.View() == old(store.View())
    {
      hide Looked, Approvals.Decide, Approvals.Get, ScopeOk, Stored;
      StoredMore(Empty, calls, Call.Approve(who, id, now, at, token));
      if who.role != "admin" && who.role != "manager" { Rules.OtherRolesAreRefused(store.View(), Call.Approve(who, id, now, at, token)); }
      calls := calls + [Call.Approve(who, id, now, at, token)];
      if !ScopeOk(who) || !MayDecide(who) {
        return Failed(Invalid);
      }
      var r := Look(who, id, now, at);
      if r.None? {
        return Failed(NotFound);
      }
      if r.value.status != Pending {
        return Failed(Invalid);
      }
      var updated := store.Decide(id, who.workspaceId, who.tenantId, Approved, Some(who.userId), at, Some(HashToken(token)));
      return if updated.Some? then Granted(updated.value, token) else Failed(Invalid);
    }

    method Reject(who: Identity, id: nat, now: int, at: int) returns (a: Answer)
      requires Valid()
      modifies this`calls, store
      ensures var c := Call.Reject(who, id, now, at);
              Valid() && calls == old(calls) + [c] && a == Serve(old(store.View()), c).1
      ensures who.role != "admin" && who.role != "manager" ==> a == Failed(Invalid) && store.View() == old(store.View())
    {
      hide Looked, Approvals.Decide, Approvals.Get, ScopeOk, Stored;
      StoredMore(Empty, calls, Call.Reject(who, id, now, at));
      if who.role != "admin" && who.role != "manager" { Rules.OtherRolesAreRefused(store.View(), Call.Reject(who, id, now, at)); }
      calls := calls + [Call.Reject(who, id, now, at)];
      if !ScopeOk(who) || !MayDecide(who) {
        return Failed(Invalid);
      }
      var r := Look(who, id, now, at);
      if r.None? {
        return Failed(NotFound);
      }
      if r.value.status != Pending {
        return Failed(Invalid);
      }
      var updated := store.Decide(id, who.workspaceId, who.tenantId, Rejected, Some(who.userId), at, None);
      return if updated.Some? then One(updated.value) else Failed(Invalid);
    }

    method Verify(who: Identity, id: nat, now: int, at: int, token: string, toolName: string, arguments: string) returns (a: Answer)
      requires Valid()
      modifies this`calls, store
      ensures var c := Call.Verify(who, id, now, at, token, toolName, arguments);
              Valid() && calls == old(calls) + [c] && a == Serve(old(store.View()), c).1
    {
      hide Looked, Approvals.Decide, Approvals.Get, Approvals.TokenHash, ScopeOk, Stored;
      StoredMore(Empty, calls, Call.Verify(who, id, now, at, token, toolName, arguments));
      calls := calls + [Call.Verify(who, id, now, at, token, toolName, arguments)];
      if !ScopeOk(who) {
        return Failed(Invalid);
      }
      var r := Look(who, id, now, at);
      if r.None? {
        return Failed(NotFound);
      }
      var record := r.value;
      if record.status != Approved || record.toolName != toolName {
        return Truth(false);
      }
      if !Digestible(arguments) {
        return Failed(Invalid);
      }
      if record.arguments != arguments {
        return Truth(false);
      }
      var hash := store.TokenHash(record.id, who.workspaceId, who.tenantId);
      return Truth(hash == Some(HashToken(token)));
    }
  }
}
