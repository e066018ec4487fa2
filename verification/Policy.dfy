/** The fail-closed policy decision before every tool call. */
module Policy {
  import opened Models
  import opened Text
  import Approvals

  datatype Outcome = Allow | Deny | ApprovalRequired

  /** The maps that the engine is constructed with: risks of the registered tools, tools of each role. */
  datatype Policy = Policy(tools: map<string, Approvals.Risk>, roles: map<string, set<string>>)

  predicate Complete(i: Identity) {
    !Blank(i.userId) && !Blank(i.workspaceId) && !Blank(i.tenantId) && !Blank(i.role)
  }

  /** `authorize`; an absent and an empty token are the same. */
  function Authorize(p: Policy, i: Identity, tool: string, token: string): Outcome {
    if !Complete(i) then Deny
    else if tool !in p.tools then Deny
    else if i.role !in p.roles || tool !in p.roles[i.role] then Deny
    else if p.tools[tool] == Approvals.Read then Allow
    else if token != "" then Allow
    else ApprovalRequired
  }

  /** Policy q registers at least p's tools, with the same risks, and lists at least p's tools for each role. */
  predicate Widens(p: Policy, q: Policy) {
    && (forall t <- p.tools :: t in q.tools && q.tools[t] == p.tools[t])
    && (forall r <- p.roles :: r in q.roles && p.roles[r] <= q.roles[r])
  }

  /** Configuring more never takes anything away, nor turns a request for approval into free use; and a token
      never helps a caller whom the same policy denies without one. */
  lemma DecisionsOnlyWiden(p: Policy, q: Policy, i: Identity, tool: string, token: string)
    requires Widens(p, q)
    ensures Authorize(p, i, tool, token) != Deny ==> Authorize(q, i, tool, token) == Authorize(p, i, tool, token)
    ensures Authorize(q, i, tool, "") == Deny ==> Authorize(p, i, tool, token) == Deny
  {}
}
