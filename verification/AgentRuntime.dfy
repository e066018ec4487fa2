/** The runtime object, which writes the audit log of a run step by step. */
module AgentRuntime {
  import opened IsoTime
  import opened Models
  import opened Text
  import opened Policy
  import opened RunTrace

  /** One row of the audit log. */
  datatype Entry = Entry(traceId: string, run: nat, workspaceId: string, event: Event)

  /** What of a trace the audit log shows: everything but the calls themselves. */
  function Audited(traceId: string, run: nat, workspaceId: string, word: seq<Event>): seq<Entry> {
    if word == [] then []
    else
      var last := word[|word| - 1];
      Audited(traceId, run, workspaceId, word[..|word| - 1])
      + if last.ToolCall? || last.ModelCall? then [] else [Entry(traceId, run, workspaceId, last)]
  }

  lemma AuditedMore(traceId: string, run: nat, workspaceId: string, word: seq<Event>, e: Event)
    ensures Audited(traceId, run, workspaceId, word + [e])
         == Audited(traceId, run, workspaceId, word) + if e.ToolCall? || e.ModelCall? then [] else [Entry(traceId, run, workspaceId, e)]
  {
    assert (word + [e])[..|word|] == word;
  }

  function TextOf(v: Value): string {
    if v.Str? then v.text else ""
  }

  /** The sentence that a verified result yields. */
  function VerifiedMessage(order: string, t: ToolResult): string {
    "Order " + order + " is " + TextOf(DataOf(t).status) + ". Observed at " + TextOf(t.observedAt) + "."
  }

  /** What follows it: the model's text only when a model was asked with consent and explained. */
  function Explanation(hasModel: bool, consent: bool, m: ModelReply): string {
    if !hasModel then ""
    else if !consent then " Model explanation was not requested."
    else if Explains(m) then "\n\nModel explanation (unverified): " + m.text.text
    else " Model explanation is unavailable."
  }

  /** The message of a run that is blocked, or fails before it has a verified result. */
  function Refusal(rt: Runtime, q: Request, w: World): string {
    if !Given(q.query) then "A non-empty customer request is required."
    else if !Given(q.orderId) then "Please provide an order ID so the authorized ERP record can be checked."
    else if Authorize(rt.policy, q.identity, TOOL, "") != Allow then "This request is not authorized for the requested operation."
    else if w.gateway.Replies? && !w.gateway.result.success then "The order status could not be verified at this time."
    else "The ERP result failed provenance verification."
  }

  /** What a finished run answers: nothing of the tool's data unless it was verified, and the verified
      sentence first whenever it was. */
  predicate Answers(rt: Runtime, q: Request, w: World, r: RunResult) {
    && Some(r.status) == StatusOf(rt, q, w)
    && (r.status in {Blocked, Failed} ==> r == RunResult(r.status, Refusal(rt, q, w), Nothing, Nothing, Nothing))
    && (r.status in {Succeeded, PartialSuccess} ==>
          && Given(q.orderId) && w.gateway.Replies?
          && var t := w.gateway.result;
             && r.message == VerifiedMessage(Strip(q.orderId.value), t) + Explanation(rt.hasModel, q.consent, w.model)
             && r.sourceId == t.sourceId && r.observedAt == t.observedAt && r.externalRef == t.externalRef)
  }

  /** The status of an answer and what it rests on: a success on an entitled caller and a proven reply, a failure
      on a reply that is not proven, and a block on a caller who is not entitled or a request without content. */
  predicate Justified(rt: Runtime, q: Request, w: World, st: Status) {
    var called := q.query.Some? && !Blank(q.query.value) && q.orderId.Some? && !Blank(q.orderId.value) && Entitled(rt.policy, q.identity);
    && (st in {Succeeded, PartialSuccess} <==> called && Proven(q, w))
    && (st == PartialSuccess <==> called && Proven(q, w) && rt.hasModel && q.consent && !Usable(w.model))
    && (st == Failed <==> called && !Proven(q, w))
    && (st == Blocked <==> !called)
  }

  lemma AnswersAreJustified(rt: Runtime, q: Request, w: World)
    ensures forall r :: Answers(rt, q, w, r) ==> Justified(rt, q, w, r.status)
  {
    hide Strip, Blank, Proven, Usable, Entitled, Events, Refusal, VerifiedMessage, Explanation;
    SuccessIff(rt, q, w);
    CalledIff(rt, q, w, Strip(if q.orderId.Some? then q.orderId.value else ""));
    StatusShape(rt, q, w);
    hide StatusOf;
  }

  lemma StatusShape(rt: Runtime, q: Request, w: World)
    ensures StatusOf(rt, q, w) != Some(Cancelled)
    ensures StatusOf(rt, q, w) == Some(Failed) ==> w.gateway.Replies?
    ensures StatusOf(rt, q, w).None? ==> w.gateway.GatewayRaises? || (rt.hasModel && q.consent && w.model.ModelRaises?)
    ensures StatusOf(rt, q, w).Some? && w.gateway.GatewayRaises? ==> StatusOf(rt, q, w) == Some(Blocked)
    ensures StatusOf(rt, q, w) == Some(Succeeded) || StatusOf(rt, q, w) == Some(PartialSuccess) ==> !(rt.hasModel && q.consent && w.model.ModelRaises?)
  {
    hide Strip, Blank, Verified, Explains, Authorize;
  }

  /** What an answer does not depend on: a blocked one on nothing outside, a failed one on nothing of the
      gateway's reply but whether it reports success, and one without a consented and usable explanation on
      nothing that the model said. */
  lemma AnswersHide(rt: Runtime, q: Request, w: World, w': World, r: RunResult, r': RunResult)
    requires Answers(rt, q, w, r) && Answers(rt, q, w', r')
    ensures r.status == Blocked ==> r == r'
    ensures r.status == r'.status == Failed && w.gateway.Replies? && w'.gateway.Replies? ==>
              w.gateway.result.success == w'.gateway.result.success ==> r == r'
    ensures w.gateway == w'.gateway && !(rt.hasModel && q.consent) ==> r == r'
    ensures w.gateway == w'.gateway && !Usable(w.model) && !Usable(w'.model) ==> r == r'
  {
    hide Strip, Blank, Verified, Authorize, VerifiedMessage;
  }

  /** The sentence tells the status: of one order, observed at one time, two statuses never read alike. */
  lemma MessageTellsStatus(order: string, t: ToolResult, t': ToolResult)
    requires t.observedAt == t'.observedAt && VerifiedMessage(order, t) == VerifiedMessage(order, t')
    ensures TextOf(DataOf(t).status) == TextOf(DataOf(t').status)
  {
    var front, back := "Order " + order + " is ", ". Observed at " + TextOf(t.observedAt) + ".";
    var s, s' := TextOf(DataOf(t).status), TextOf(DataOf(t').status);
    assert VerifiedMessage(order, t) == front + s + back && VerifiedMessage(order, t') == front + s' + back;
    assert |s| == |s'|;
    assert (front + s + back)[|front|..|front| + |s|] == s && (front + s' + back)[|front|..|front| + |s'|] == s';
  }

  class AuditLog {
    var events: seq<Entry>

    constructor ()
      ensures events == []
    {
      events := [];
    }

    method Append(e: Entry)
      modifies this
      ensures events == old(events) + [e]
    {
      events := events + [e];
    }
  }

  class Agent {
    const runtime: Runtime
    const audit: AuditLog
    /** The run ids drawn so far: the next one is new. */
    var runs: nat

    constructor (runtime: Runtime, audit: AuditLog)
      ensures this.runtime == runtime && this.audit == audit && runs == 0
    {
      this.runtime, this.audit, runs := runtime, audit, 0;
    }

    /** What the log holds when a run has left this much of its trace. */
    ghost predicate Logged(traceId: string, run: nat, q: Request, before: seq<Entry>, word: seq<Event>)
      reads audit
    {
      audit.events == before + Audited(traceId, run, q.identity.workspaceId, word)
    }

    /** Append one event to the log; `word` is the trace so far. */
    method Emit(traceId: string, run: nat, q: Request, e: Event, ghost before: seq<Entry>, ghost word: seq<Event>)
      requires !e.ToolCall? && !e.ModelCall? && Logged(traceId, run, q, before, word)
      modifies audit
      ensures Logged(traceId, run, q, before, word + [e])
    {
      AuditedMore(traceId, run, q.identity.workspaceId, word, e);
      audit.Append(Entry(traceId, run, q.identity.workspaceId, e));
    }

    /** `_export_tool_span` and `_export_model_span`. */
    method ExportSpan(traceId: string, run: nat, q: Request, tool: bool, lost: bool, ghost before: seq<Entry>, ghost word: seq<Event>)
      requires Logged(traceId, run, q, before, word)
      modifies audit
      ensures Logged(traceId, run, q, before, word + Lost(lost, tool))
    {
      if lost {
        Emit(traceId, run, q, SpanLost(tool), before, word);
      }
      assert word + [] == word;
    }

    /** `_finish`. */
    method Finish(traceId: string, run: nat, q: Request, status: Status, message: string, ghost before: seq<Entry>, ghost word: seq<Event>)
      returns (r: RunResult)
      requires Logged(traceId, run, q, before, word)
      modifies audit
      ensures Logged(traceId, run, q, before, word + [Ended(status)])
      ensures r == RunResult(status, message, Nothing, Nothing, Nothing)
    {
      Emit(traceId, run, q, Ended(status), before, word);
      r := RunResult(status, message, Nothing, Nothing, Nothing);
    }

    /** The part of `run` that asks the model about a verified result. */
    method Explain(traceId: string, run: nat, q: Request, w: World, verified: string, ghost before: seq<Entry>, ghost word: seq<Event>)
      returns (r: Option<(Status, string)>)
      requires Logged(traceId, run, q, before, word)
      modifies audit
      ensures r.None? <==> runtime.hasModel && q.consent && w.model.ModelRaises?
      ensures r.Some? ==> r.value.0 == if runtime.hasModel && q.consent && !Explains(w.model) then PartialSuccess else Succeeded
      ensures r.Some? ==> r.value.1 == verified + Explanation(runtime.hasModel, q.consent, w.model)
      ensures var whole := ModelEvents(runtime.hasModel, q.consent, w.model, w.modelSpanLost);
              Logged(traceId, run, q, before, word + whole[..Unended(r, whole)])
    {
      hide Audited, Logged, Blank;
      ghost var whole := ModelEvents(runtime.hasModel, q.consent, w.model, w.modelSpanLost);
      if !runtime.hasModel {
        assert word + whole[..0] == word;
        return Some((Succeeded, verified + ""));
      }
      if !q.consent {
        Emit(traceId, run, q, ModelBlocked, before, word);
        assert whole[..1] == [ModelBlocked];
        return Some((Succeeded, verified + " Model explanation was not requested."));
      }
      CallUnseen(traceId, run, q, before, word, ModelCall);
      if w.model.ModelRaises? {
        assert whole[..1] == [ModelCall];
        return None;
      }
      ghost var called := word + [ModelCall];
      if Explains(w.model) {
        Emit(traceId, run, q, ModelCompleted, before, called);
        ExportSpan(traceId, run, q, false, w.modelSpanLost, before, called + [ModelCompleted]);
        assert word + whole[..|whole| - 1] == called + [ModelCompleted] + Lost(w.modelSpanLost, false);
        return Some((Succeeded, verified + "\n\nModel explanation (unverified): " + w.model.text.text));
      }
      ExportSpan(traceId, run, q, false, w.modelSpanLost, before, called);
      Emit(traceId, run, q, ModelFailed, before, called + Lost(w.modelSpanLost, false));
      assert word + whole[..|whole| - 1] == called + Lost(w.modelSpanLost, false) + [ModelFailed];
      return Some((PartialSuccess, verified + " Model explanation is unavailable."));
    }

    lemma NothingLogged(traceId: string, run: nat, q: Request)
      ensures Logged(traceId, run, q, audit.events, [])
    {}

    /** A call to the outside leaves no event. */
    lemma CallUnseen(traceId: string, run: nat, q: Request, before: seq<Entry>, word: seq<Event>, e: Event)
      requires Logged(traceId, run, q, before, word) && (e.ToolCall? || e.ModelCall?)
      ensures Logged(traceId, run, q, before, word + [e])
    {
      AuditedMore(traceId, run, q.identity.workspaceId, word, e);
    }

    /** `run`; the result is absent when an exception of the gateway, or an unexpected one of the model,
        passes through. */
    method Run(q: Request, traceId: string, w: World) returns (r: Option<RunResult>)
      modifies this, audit
      ensures runs == old(runs) + 1
      ensures Logged(traceId, old(runs), q, old(audit.events), Events(runtime, q, w))
      ensures r.Some? <==> StatusOf(runtime, q, w).Some?
      ensures r.Some? ==> Answers(runtime, q, w, r.value)
      ensures r.Some? ==> Justified(runtime, q, w, r.value.status)
    {
      hide Strip, Blank, Authorize, Audited, Answers, StatusOf, ToolEvents, Logged, Events, Refusal, Justified;
      AnswersAreJustified(runtime, q, w);
      ghost var before, word := audit.events, [];
      var run := runs;
      runs := runs + 1;
      NothingLogged(traceId, run, q);
      Emit(traceId, run, q, Created, before, word);
      word := word + [Created];
      assert word == [Created];
      if !Given(q.query) {
        var message := Refusal(runtime, q, w);
        BlockedAnswer(runtime, q, w, message);
        var done := Finish(traceId, run, q, Blocked, message, before, word);
        return Some(done);
      }
      if !Given(q.orderId) {
        var message := Refusal(runtime, q, w);
        BlockedAnswer(runtime, q, w, message);
        var done := Finish(traceId, run, q, Blocked, message, before, word);
        return Some(done);
      }
      var outcome := Authorize(runtime.policy, q.identity, TOOL, "");
      Emit(traceId, run, q, Decided(outcome), before, word);
      word := word + [Decided(outcome)];
      assert word == [Created, Decided(outcome)];
      if outcome != Allow {
        var message := Refusal(runtime, q, w);
        BlockedAnswer(runtime, q, w, message);
        var done := Finish(traceId, run, q, Blocked, message, before, word);
        return Some(done);
      }
      ToolCases(runtime, q, w, Strip(q.orderId.value));
      r := Call(q, traceId, run, w, Strip(q.orderId.value), before, word);
    }

    /** `run` from the tool call on. */
    method Call(q: Request, traceId: string, run: nat, w: World, order: string, ghost before: seq<Entry>, ghost start: seq<Event>)
      returns (r: Option<RunResult>)
      requires Logged(traceId, run, q, before, start)
      requires Given(q.query) && Given(q.orderId) && order == Strip(q.orderId.value) && Authorize(runtime.policy, q.identity, TOOL, "") == Allow
      modifies audit
      ensures Logged(traceId, run, q, before, start + ToolEvents(runtime, q, w, order))
      ensures r.Some? <==> StatusOf(runtime, q, w).Some?
      ensures r.Some? ==> Answers(runtime, q, w, r.value)
    {
      hide Strip, Blank, Verified, Explains, Authorize, Audited, VerifiedMessage, Explanation, Refusal;
      hide ModelEvents, Logged, Answers, StatusOf, ToolEvents;
      ToolCases(runtime, q, w, order);
      CallUnseen(traceId, run, q, before, start, ToolCall(order));
      ghost var word := start + [ToolCall(order)];
      if w.gateway.GatewayRaises? {
        return None;
      }
      var t := w.gateway.result;
      var verified := Verified(q.identity, order, t);
      ExportSpan(traceId, run, q, true, w.toolSpanLost, before, word);
      word := word + Lost(w.toolSpanLost, true);
      Emit(traceId, run, q, ToolCompleted(t.success, verified), before, word);
      word := word + [ToolCompleted(t.success, verified)];
      assert word == start + ([ToolCall(order)] + Lost(w.toolSpanLost, true) + [ToolCompleted(t.success, verified)]);
      if !t.success {
        NotVerified(q.identity, order, t);
        var message := Refusal(runtime, q, w);
        FailedAnswer(runtime, q, w, message);
        var done := Finish(traceId, run, q, Failed, message, before, word);
        assert word + [Ended(Failed)] == start + ToolEvents(runtime, q, w, order);
        return Some(done);
      }
      if !verified {
        var message := Refusal(runtime, q, w);
        FailedAnswer(runtime, q, w, message);
        var done := Finish(traceId, run, q, Failed, message, before, word);
        assert word + [Ended(Failed)] == start + ToolEvents(runtime, q, w, order);
        return Some(done);
      }
      var message := VerifiedMessage(order, t);
      var explained := Explain(traceId, run, q, w, message, before, word);
      ghost var whole := ModelEvents(runtime.hasModel, q.consent, w.model, w.modelSpanLost);
      if explained.None? {
        BreaksOff(runtime.hasModel, q.consent, w.model, w.modelSpanLost);
        assert word + whole[..|whole|] == start + ToolEvents(runtime, q, w, order);
        return None;
      }
      VerifiedAnswer(runtime, q, w, explained.value.0, explained.value.1);
      EndsWithStatus(runtime.hasModel, q.consent, w.model, w.modelSpanLost);
      Emit(traceId, run, q, Ended(explained.value.0), before, word + whole[..|whole| - 1]);
      assert word + whole[..|whole| - 1] + [Ended(explained.value.0)] == start + ToolEvents(runtime, q, w, order);
      return Some(RunResult(explained.value.0, explained.value.1, t.sourceId, t.observedAt, t.externalRef));
    }
  }

  /** How many of the model's events are out when `Explain` returns: all but the end event. */
  function Unended(r: Option<(Status, string)>, whole: seq<Event>): nat {
    if r.None? || whole == [] then |whole| else |whole| - 1
  }

  /** A run that policy allows: its status and the events from the tool call on. */
  lemma ToolCases(rt: Runtime, q: Request, w: World, order: string)
    requires Given(q.query) && Given(q.orderId) && order == Strip(q.orderId.value) && Authorize(rt.policy, q.identity, TOOL, "") == Allow
    ensures Events(rt, q, w) == [Created, Decided(Allow)] + ToolEvents(rt, q, w, order)
    ensures w.gateway.GatewayRaises? ==> StatusOf(rt, q, w).None? && ToolEvents(rt, q, w, order) == [ToolCall(order)]
    ensures w.gateway.Replies? ==> ToolEvents(rt, q, w, order) == ReplyEvents(rt, q, w, order)
    ensures w.gateway.Replies? && Verified(q.identity, order, w.gateway.result) && rt.hasModel && q.consent && w.model.ModelRaises? ==>
              StatusOf(rt, q, w).None?
  {
    hide Verified, Explains, Authorize, Strip, Blank;
  }

  lemma FailedAnswer(rt: Runtime, q: Request, w: World, message: string)
    requires Given(q.query) && Given(q.orderId) && Authorize(rt.policy, q.identity, TOOL, "") == Allow
    requires w.gateway.Replies? && !Verified(q.identity, Strip(q.orderId.value), w.gateway.result) && message == Refusal(rt, q, w)
    ensures StatusOf(rt, q, w) == Some(Failed) && Answers(rt, q, w, RunResult(Failed, message, Nothing, Nothing, Nothing))
  {
    hide Verified, Explains, Authorize, Strip, Blank;
  }

  lemma VerifiedAnswer(rt: Runtime, q: Request, w: World, st: Status, message: string)
    requires Given(q.query) && Given(q.orderId) && Authorize(rt.policy, q.identity, TOOL, "") == Allow
    requires w.gateway.Replies? && Verified(q.identity, Strip(q.orderId.value), w.gateway.result)
    requires !(rt.hasModel && q.consent && w.model.ModelRaises?)
    requires st == if rt.hasModel && q.consent && !Explains(w.model) then PartialSuccess else Succeeded
    requires message == VerifiedMessage(Strip(q.orderId.value), w.gateway.result) + Explanation(rt.hasModel, q.consent, w.model)
    ensures StatusOf(rt, q, w) == Some(st)
    ensures var t := w.gateway.result; Answers(rt, q, w, RunResult(st, message, t.sourceId, t.observedAt, t.externalRef))
  {
    hide Verified, Explains, Authorize, Strip, Blank, VerifiedMessage, Explanation;
  }

  lemma BlockedAnswer(rt: Runtime, q: Request, w: World, message: string)
    requires !Given(q.query) || !Given(q.orderId) || Authorize(rt.policy, q.identity, TOOL, "") != Allow
    requires message == Refusal(rt, q, w)
    ensures StatusOf(rt, q, w) == Some(Blocked) && Answers(rt, q, w, RunResult(Blocked, message, Nothing, Nothing, Nothing))
    ensures var outcome := Authorize(rt.policy, q.identity, TOOL, "");
            Events(rt, q, w) == (if Given(q.query) && Given(q.orderId) then [Created, Decided(outcome)] else [Created]) + [Ended(Blocked)]
  {
    hide Authorize, Strip, Blank, Refusal;
  }

  lemma BreaksOff(hasModel: bool, consent: bool, m: ModelReply, lost: bool)
    ensures hasModel && consent && m.ModelRaises? ==> |ModelEvents(hasModel, consent, m, lost)| == 1
  {}

  lemma EndsWithStatus(hasModel: bool, consent: bool, m: ModelReply, lost: bool)
    requires !(hasModel && consent && m.ModelRaises?)
    ensures var whole := ModelEvents(hasModel, consent, m, lost);
            whole != [] && whole[|whole| - 1] == Ended(if hasModel && consent && !Explains(m) then PartialSuccess else Succeeded)
  {
    hide Explains;
  }

  lemma NotVerified(i: Identity, order: string, t: ToolResult)
    requires !t.success
    ensures !Verified(i, order, t)
  {}
}
