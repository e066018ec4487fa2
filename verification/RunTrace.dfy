/** One run of the agent: what it answers and the trace of events and foreign calls it leaves, for every
    behaviour of gateway, model and trace exporter. */
module RunTrace {
  import opened IsoTime
  import opened Models
  import opened Text
  import opened Policy
  import Approvals

  // ---------------------------------------------------------------- what the environment answers

  /** A field of foreign data: absent, a string, or anything else. */
  datatype Value = Nothing | Str(text: string) | Other

  datatype Data = Data(orderId: Value, tenantId: Value, status: Value)
  datatype ToolResult = ToolResult(success: bool, data: Option<Data>, sourceId: Value, observedAt: Value, externalRef: Value,
                                   workspaceId: Value, tenantId: Value)
  datatype Reply = Replies(result: ToolResult) | GatewayRaises

  datatype ModelReply = Completes(provider: Value, model: Value, text: Value) | NoCompletion | ProviderError | ModelRaises

  /** One run's environment; without an exporter no span is lost. */
  datatype World = World(gateway: Reply, model: ModelReply, toolSpanLost: bool, modelSpanLost: bool)

  datatype Runtime = Runtime(policy: Policy, hasModel: bool)
  const TOOL := "erp.get_order_status"

  /** A request; an absent query is also one that is no string. */
  datatype Request = Request(query: Option<string>, identity: Identity, orderId: Option<string>, consent: bool)

  predicate Given(s: Option<string>) {
    s.Some? && !Blank(s.value)
  }

  predicate Written(v: Value) {
    v.Str? && !Blank(v.text)
  }

  function DataOf(t: ToolResult): Data {
    match t.data case Some(d) => d case None => Data(Nothing, Nothing, Nothing)
  }

  /** `provenance_verified`, for the trimmed order id that was asked for. */
  predicate Verified(i: Identity, order: string, t: ToolResult) {
    var d := DataOf(t);
    && t.success && t.workspaceId == Str(i.workspaceId) && t.tenantId == Str(i.tenantId) && t.externalRef == Str(order)
    && Written(t.sourceId) && Written(t.observedAt)
    && d.orderId == Str(order) && Written(d.status) && |d.status.text| <= 256
    && (d.tenantId == Nothing || d.tenantId == Str(i.tenantId))
  }

  predicate Explains(m: ModelReply) {
    m.Completes? && Written(m.provider) && Written(m.model) && Written(m.text) && |m.text.text| <= 32_000
  }

  // ---------------------------------------------------------------- the trace of a run

  datatype Status = Succeeded | PartialSuccess | Blocked | Failed | Cancelled

  /** Audit events, and the two calls to the outside in their places between them. */
  datatype Event =
    | Created
    | Decided(outcome: Outcome)
    | ToolCall(order: string)
    | SpanLost(tool: bool)
    | ToolCompleted(success: bool, verified: bool)
    | ModelBlocked
    | ModelCall
    | ModelFailed
    | ModelCompleted
    | Ended(status: Status)

  datatype RunResult = RunResult(status: Status, message: string, sourceId: Value, observedAt: Value, externalRef: Value)

  function Lost(lost: bool, tool: bool): seq<Event> {
    if lost then [SpanLost(tool)] else []
  }

  /** From a verified tool result on. */
  function ModelEvents(hasModel: bool, consent: bool, m: ModelReply, spanLost: bool): seq<Event> {
    if !hasModel then [Ended(Succeeded)]
    else if !consent then [ModelBlocked, Ended(Succeeded)]
    else if m.ModelRaises? then [ModelCall]
    else if Explains(m) then [ModelCall, ModelCompleted] + Lost(spanLost, false) + [Ended(Succeeded)]
    else [ModelCall] + Lost(spanLost, false) + [ModelFailed, Ended(PartialSuccess)]
  }

  /** From the gateway's reply on, together with the call. */
  function ReplyEvents(rt: Runtime, q: Request, w: World, order: string): seq<Event>
    requires w.gateway.Replies?
  {
    var verified := Verified(q.identity, order, w.gateway.result);
    [ToolCall(order)] + Lost(w.toolSpanLost, true) + [ToolCompleted(w.gateway.result.success, verified)]
    + if verified then ModelEvents(rt.hasModel, q.consent, w.model, w.modelSpanLost) else [Ended(Failed)]
  }

  function ToolEvents(rt: Runtime, q: Request, w: World, order: string): seq<Event> {
    if w.gateway.GatewayRaises? then [ToolCall(order)] else ReplyEvents(rt, q, w, order)
  }

  /** The whole run; it breaks off after a call that raises an exception the runtime does not expect. */
  function Events(rt: Runtime, q: Request, w: World): seq<Event> {
    if !Given(q.query) || !Given(q.orderId) then [Created, Ended(Blocked)]
    else
      var outcome := Authorize(rt.policy, q.identity, TOOL, "");
      [Created, Decided(outcome)] + if outcome == Allow then ToolEvents(rt, q, w, Strip(q.orderId.value)) else [Ended(Blocked)]
  }

  // ---------------------------------------------------------------- the grammar of traces

  datatype Phase =
    | Start | Opened | Permitted | Refused | Calling | CalledUnspanned | Unverified | Checked
    | Declined | Asking | AskingUnspanned | Explained | ExplainedUnspanned | Unexplained
    | Done(status: Status) | Broken

  function Move(p: Phase, e: Event): Phase {
    match (p, e)
    case (Start, Created) => Opened
    case (Opened, Ended(Blocked)) => Done(Blocked)
    case (Opened, Decided(o)) => if o == Allow then Permitted else Refused
    case (Refused, Ended(Blocked)) => Done(Blocked)
    case (Permitted, ToolCall(_)) => Calling
    case (Calling, SpanLost(tool)) => if tool then CalledUnspanned else Broken
    case (Calling, ToolCompleted(s, v)) => if s && v then Checked else if v then Broken else Unverified
    case (CalledUnspanned, ToolCompleted(s, v)) => if s && v then Checked else if v then Broken else Unverified
    case (Unverified, Ended(Failed)) => Done(Failed)
    case (Checked, Ended(Succeeded)) => Done(Succeeded)
    case (Checked, ModelBlocked) => Declined
    case (Checked, ModelCall) => Asking
    case (Declined, Ended(Succeeded)) => Done(Succeeded)
    case (Asking, SpanLost(tool)) => if tool then Broken else AskingUnspanned
    case (Asking, ModelFailed) => Unexplained
    case (AskingUnspanned, ModelFailed) => Unexplained
    case (Unexplained, Ended(PartialSuccess)) => Done(PartialSuccess)
    case (Asking, ModelCompleted) => Explained
    case (Explained, SpanLost(tool)) => if tool then Broken else ExplainedUnspanned
    case (Explained, Ended(Succeeded)) => Done(Succeeded)
    case (ExplainedUnspanned, Ended(Succeeded)) => Done(Succeeded)
    case _ => Broken
  }

  /** The phase after a word, read from a phase on. */
  function Reach(p: Phase, word: seq<Event>): Phase
    decreases |word|
  {
    if word == [] then p else Reach(Move(p, word[0]), word[1..])
  }

  lemma {:induction false} ReachConcat(p: Phase, a: seq<Event>, b: seq<Event>)
    ensures Reach(p, a + b) == Reach(Reach(p, a), b)
    decreases |a|
  {
    if a == [] {
      assert a + b == b;
    } else {
      ReachConcat(Move(p, a[0]), a[1..], b);
      assert (a + b)[1..] == a[1..] + b;
    }
  }

  lemma {:induction false} NoWayBack(word: seq<Event>)
    ensures Reach(Broken, word) == Broken
    decreases |word|
  {
    if word != [] { NoWayBack(word[1..]); }
  }

  lemma DoneIsLast(st: Status, word: seq<Event>)
    ensures word != [] ==> Reach(Done(st), word) == Broken
  {
    if word != [] { NoWayBack(word[1..]); }
  }

  /** What a run answers with, unless a foreign exception ends it. */
  function StatusOf(rt: Runtime, q: Request, w: World): Option<Status> {
    if !Given(q.query) || !Given(q.orderId) || Authorize(rt.policy, q.identity, TOOL, "") != Allow then Some(Blocked)
    else if w.gateway.GatewayRaises? then None
    else if !Verified(q.identity, Strip(q.orderId.value), w.gateway.result) then Some(Failed)
    else if !rt.hasModel || !q.consent then Some(Succeeded)
    else if w.model.ModelRaises? then None
    else Some(if Explains(w.model) then Succeeded else PartialSuccess)
  }

  // ---------------------------------------------------------------- every run follows the grammar

  /** A run that is not broken off ends in the phase of its status; one that is ends inside the call. */
  lemma TraceAccepted(rt: Runtime, q: Request, w: World)
    ensures var p := Reach(Start, Events(rt, q, w));
            match StatusOf(rt, q, w) case Some(st) => p == Done(st) case None => p in {Calling, Asking}
  {
    hide Verified, Explains, Authorize, Strip, Blank, Reach, ToolEvents, ModelEvents;
    if Given(q.query) && Given(q.orderId) {
      var outcome := Authorize(rt.policy, q.identity, TOOL, "");
      if outcome == Allow {
        var order := Strip(q.orderId.value);
        ToolAccepted(rt, q, w, order);
        ReachConcat(Start, [Created, Decided(Allow)], ToolEvents(rt, q, w, order));
        ReachTwo(Start, Created, Decided(Allow));
      } else {
        assert [Created, Decided(outcome)] + [Ended(Blocked)] == [Created, Decided(outcome), Ended(Blocked)];
        ReachThree(Start, Created, Decided(outcome), Ended(Blocked));
      }
    } else {
      ReachTwo(Start, Created, Ended(Blocked));
    }
  }

  lemma ReachOne(p: Phase, e: Event)
    ensures Reach(p, [e]) == Move(p, e)
  {
    assert [e][1..] == [];
  }

  lemma ReachTwo(p: Phase, e: Event, f: Event)
    ensures Reach(p, [e, f]) == Move(Move(p, e), f)
  {
    ReachOne(Move(p, e), f);
    assert [e, f][1..] == [f];
  }

  lemma ReachThree(p: Phase, e: Event, f: Event, g: Event)
    ensures Reach(p, [e, f, g]) == Move(Move(Move(p, e), f), g)
  {
    ReachTwo(Move(p, e), f, g);
    assert [e, f, g][1..] == [f, g];
  }

  /** A span that is lost, or not, between an event and the ones after it. */
  lemma ReachAround(p: Phase, front: seq<Event>, lost: bool, tool: bool, back: seq<Event>)
    ensures var q := Reach(p, front);
            Reach(p, front + Lost(lost, tool) + back) == Reach(if lost then Move(q, SpanLost(tool)) else q, back)
  {
    ReachConcat(p, front + Lost(lost, tool), back);
    ReachConcat(p, front, Lost(lost, tool));
    ReachOne(Reach(p, front), SpanLost(tool));
  }

  /** Where a verified result leads. */
  function ModelPhase(hasModel: bool, consent: bool, m: ModelReply): Phase {
    if !hasModel || !consent then Done(Succeeded)
    else if m.ModelRaises? then Asking
    else Done(if Explains(m) then Succeeded else PartialSuccess)
  }

  lemma ModelAccepted(hasModel: bool, consent: bool, m: ModelReply, spanLost: bool)
    ensures Reach(Checked, ModelEvents(hasModel, consent, m, spanLost)) ==
            ModelPhase(hasModel, consent, m)
  {
    hide Explains, Reach;
    if !hasModel {
      ReachOne(Checked, Ended(Succeeded));
    } else if !consent {
      ReachTwo(Checked, ModelBlocked, Ended(Succeeded));
    } else if m.ModelRaises? {
      ReachOne(Checked, ModelCall);
    } else if Explains(m) {
      ReachTwo(Checked, ModelCall, ModelCompleted);
      ReachAround(Checked, [ModelCall, ModelCompleted], spanLost, false, [Ended(Succeeded)]);
      ReachOne(if spanLost then ExplainedUnspanned else Explained, Ended(Succeeded));
    } else {
      ReachOne(Checked, ModelCall);
      ReachAround(Checked, [ModelCall], spanLost, false, [ModelFailed, Ended(PartialSuccess)]);
      ReachTwo(if spanLost then AskingUnspanned else Asking, ModelFailed, Ended(PartialSuccess));
    }
  }

  lemma VerifiedSucceeds(i: Identity, order: string, t: ToolResult)
    ensures Verified(i, order, t) ==> t.success
  {}

  lemma ToolAccepted(rt: Runtime, q: Request, w: World, order: string)
    ensures Reach(Permitted, ToolEvents(rt, q, w, order)) ==
            if w.gateway.GatewayRaises? then Calling
            else if !Verified(q.identity, order, w.gateway.result) then Done(Failed)
            else ModelPhase(rt.hasModel, q.consent, w.model)
  {
    hide Verified, ModelPhase, ModelEvents, Reach;
    ReachOne(Permitted, ToolCall(order));
    if !w.gateway.GatewayRaises? {
      var t := w.gateway.result;
      var verified := Verified(q.identity, order, t);
      var rest := if verified then ModelEvents(rt.hasModel, q.consent, w.model, w.modelSpanLost) else [Ended(Failed)];
      VerifiedSucceeds(q.identity, order, t);
      ModelAccepted(rt.hasModel, q.consent, w.model, w.modelSpanLost);
      ReachAround(Permitted, [ToolCall(order)], w.toolSpanLost, true, [ToolCompleted(t.success, verified)]);
      ReachOne(if w.toolSpanLost then CalledUnspanned else Calling, ToolCompleted(t.success, verified));
      ReachConcat(Permitted, [ToolCall(order)] + Lost(w.toolSpanLost, true) + [ToolCompleted(t.success, verified)], rest);
      ReachOne(Unverified, Ended(Failed));
    }
  }

  // ---------------------------------------------------------------- what the grammar promises

  /** One event ends a finished trace, the last, and it carries the status. */
  lemma {:induction false} EndsOnce(p: Phase, word: seq<Event>, st: Status)
    requires Reach(p, word) == Done(st) && !p.Done?
    ensures word != [] && word[|word| - 1] == Ended(st) && forall i :: 0 <= i < |word| - 1 ==> !word[i].Ended?
    decreases |word|
  {
    var next := Move(p, word[0]);
    if next.Done? {
      DoneIsLast(next.status, word[1..]);
    } else {
      EndsOnce(next, word[1..], st);
      NoWayBack(word[1..]);
      assert forall i :: 0 < i < |word| ==> word[i] == word[1..][i - 1];
    }
  }

  /** The tool is called right after a decision to allow it, and the model right after a verified result. */
  lemma {:induction false} CallsJustified(p: Phase, word: seq<Event>, i: nat)
    requires Reach(p, word) != Broken && i < |word|
    ensures word[i].ToolCall? ==> if i == 0 then p == Permitted else word[i - 1] == Decided(Allow)
    ensures word[i].ModelCall? ==> if i == 0 then p == Checked else word[i - 1] == ToolCompleted(true, true)
    decreases |word|
  {
    NoWayBack(word[1..]);
    if i > 0 {
      CallsJustified(Move(p, word[0]), word[1..], i - 1);
    }
  }

  predicate BeforeTool(p: Phase) {
    p in {Start, Opened, Permitted}
  }

  predicate BeforeModel(p: Phase) {
    BeforeTool(p) || p in {Calling, CalledUnspanned, Checked}
  }

  lemma {:induction false} NoCallsLater(p: Phase, word: seq<Event>, i: nat)
    requires Reach(p, word) != Broken && i < |word|
    ensures !BeforeTool(p) ==> !word[i].ToolCall?
    ensures !BeforeModel(p) ==> !word[i].ModelCall?
    decreases |word|
  {
    NoWayBack(word[1..]);
    if i > 0 {
      NoCallsLater(Move(p, word[0]), word[1..], i - 1);
    }
  }

  /** Neither call is ever repeated. */
  lemma {:induction false} CallsOnce(p: Phase, word: seq<Event>, i: nat, j: nat)
    requires Reach(p, word) != Broken && i < j < |word|
    ensures !(word[i].ToolCall? && word[j].ToolCall?) && !(word[i].ModelCall? && word[j].ModelCall?)
    decreases |word|
  {
    NoWayBack(word[1..]);
    if i > 0 {
      CallsOnce(Move(p, word[0]), word[1..], i - 1, j - 1);
    } else {
      NoCallsLater(Move(p, word[0]), word[1..], j - 1);
    }
  }

  predicate BeforeResult(p: Phase) {
    BeforeTool(p) || p in {Calling, CalledUnspanned}
  }

  /** A finished trace that is a success, in whole or part, holds a verified result; it is partial exactly
      when the model failed. */
  lemma {:induction false} SuccessVerified(p: Phase, word: seq<Event>, st: Status)
    requires Reach(p, word) == Done(st) && !p.Done?
    ensures BeforeResult(p) && st in {Succeeded, PartialSuccess} ==> ToolCompleted(true, true) in word
    ensures p != Unexplained ==> (st == PartialSuccess <==> ModelFailed in word)
    decreases |word|
  {
    var next := Move(p, word[0]);
    NoWayBack(word[1..]);
    assert word == [word[0]] + word[1..];
    if next.Done? {
      DoneIsLast(next.status, word[1..]);
    } else {
      SuccessVerified(next, word[1..], st);
      if next == Unexplained { FailedModelIsPartial(word[1..], st); }
    }
  }

  lemma FailedModelIsPartial(word: seq<Event>, st: Status)
    requires Reach(Unexplained, word) == Done(st)
    ensures st == PartialSuccess
  {
    NoWayBack(word[1..]);
    if Move(Unexplained, word[0]).Done? { DoneIsLast(PartialSuccess, word[1..]); }
  }

  /** A trace that is broken off has no end event. */
  lemma {:induction false} NotEnded(p: Phase, word: seq<Event>, i: nat)
    requires Reach(p, word) != Broken && !Reach(p, word).Done? && i < |word|
    ensures !word[i].Ended?
    decreases |word|
  {
    NoWayBack(word[1..]);
    var next := Move(p, word[0]);
    if next.Done? { DoneIsLast(next.status, word[1..]); }
    if i > 0 { NotEnded(next, word[1..], i - 1); }
  }

  lemma ModelEventsTell(hasModel: bool, consent: bool, m: ModelReply, spanLost: bool, e: Event)
    requires e in ModelEvents(hasModel, consent, m, spanLost)
    ensures !e.Decided? && !e.ToolCall? && !e.ToolCompleted? && (e.ModelCall? ==> hasModel && consent)
  {
    hide Explains;
  }

  lemma ToolEventsTell(rt: Runtime, q: Request, w: World, order: string, e: Event)
    requires e in ToolEvents(rt, q, w, order)
    ensures !e.Decided? && (e.ToolCall? ==> e.order == order) && (e.ModelCall? ==> rt.hasModel && q.consent)
    ensures e.ToolCompleted? ==> w.gateway.Replies?
    ensures e.ToolCompleted? ==> e.success == w.gateway.result.success && e.verified == Verified(q.identity, order, w.gateway.result)
  {
    hide ModelEvents, Verified;
    var after := ModelEvents(rt.hasModel, q.consent, w.model, w.modelSpanLost);
    if e in after {
      ModelEventsTell(rt.hasModel, q.consent, w.model, w.modelSpanLost, e);
    }
  }

  /** The events of a run tell the truth about it. */
  lemma EventsTell(rt: Runtime, q: Request, w: World, e: Event)
    requires e in Events(rt, q, w)
    ensures e.Decided? ==> e.outcome == Authorize(rt.policy, q.identity, TOOL, "")
    ensures e.ToolCall? ==> Given(q.orderId) && e.order == Strip(q.orderId.value)
    ensures e.ToolCompleted? ==> Given(q.orderId) && w.gateway.Replies?
    ensures e.ToolCompleted? ==> e.success == w.gateway.result.success && e.verified == Verified(q.identity, Strip(q.orderId.value), w.gateway.result)
    ensures e.ModelCall? ==> rt.hasModel && q.consent
  {
    hide ToolEvents, Verified, Authorize, Strip, Blank;
    if Given(q.query) && Given(q.orderId) {
      if e in ToolEvents(rt, q, w, Strip(q.orderId.value)) {
        ToolEventsTell(rt, q, w, Strip(q.orderId.value), e);
      }
    }
  }

  /** A call at this place is one that policy allowed just before, or that the caller consented to and a
      verified result precedes. */
  predicate CallSound(rt: Runtime, q: Request, word: seq<Event>, i: nat)
    requires i < |word|
  {
    && (word[i].ToolCall? ==> i > 0 && word[i - 1] == Decided(Allow) && Authorize(rt.policy, q.identity, TOOL, "") == Allow)
    && (word[i].ModelCall? ==> i > 0 && word[i - 1] == ToolCompleted(true, true) && rt.hasModel && q.consent)
  }

  /** What holds of every run, in every environment: one last end event with the status of the answer, and
      none when a foreign exception breaks the run off; the tool called at most once, only to an identity
      that policy allows and right after that decision; the model called at most once, with consent, right
      after a verified result; success of either kind only with a verified result. */
  lemma RunIsSound(rt: Runtime, q: Request, w: World)
    ensures var word := Events(rt, q, w);
            && (StatusOf(rt, q, w).Some? ==> word != [] && word[|word| - 1] == Ended(StatusOf(rt, q, w).value))
            && (StatusOf(rt, q, w).Some? ==> forall i :: 0 <= i < |word| - 1 ==> !word[i].Ended?)
            && (StatusOf(rt, q, w).None? ==> forall i :: 0 <= i < |word| ==> !word[i].Ended?)
            && (forall i :: 0 <= i < |word| ==> CallSound(rt, q, word, i))
            && (forall i, j :: 0 <= i < j < |word| ==> !(word[i].ToolCall? && word[j].ToolCall?) && !(word[i].ModelCall? && word[j].ModelCall?))
    ensures StatusOf(rt, q, w) in {Some(Succeeded), Some(PartialSuccess)} ==> Proven(q, w)
  {
    hide Events, StatusOf, Reach, Authorize, Verified, Strip, Blank, Proven;
    var word := Events(rt, q, w);
    SuccessIff(rt, q, w);
    TraceAccepted(rt, q, w);
    forall i | 0 <= i < |word|
      ensures CallSound(rt, q, word, i)
    {
      CallsJustified(Start, word, i);
      EventsTell(rt, q, w, word[i]);
      if i > 0 { EventsTell(rt, q, w, word[i - 1]); }
    }
    forall i, j | 0 <= i < j < |word|
      ensures !(word[i].ToolCall? && word[j].ToolCall?) && !(word[i].ModelCall? && word[j].ModelCall?)
    {
      CallsOnce(Start, word, i, j);
    }
    match StatusOf(rt, q, w) {
      case Some(st) =>
        EndsOnce(Start, word, st);
      case None =>
        forall i | 0 <= i < |word| ensures !word[i].Ended? { NotEnded(Start, word, i); }
    }
  }

  // ---------------------------------------------------------------- what a success rests on

  /** The gateway's reply is about the order that was asked for, in the caller's workspace and tenant, and
      tells its source, its time and a status of bounded length. */
  predicate Proven(q: Request, w: World) {
    && q.orderId.Some? && w.gateway.Replies?
    && var t, i, order := w.gateway.result, q.identity, Strip(q.orderId.value);
       && t.success && t.data.Some?
       && t.workspaceId == Str(i.workspaceId) && t.tenantId == Str(i.tenantId)
       && t.externalRef == Str(order) && t.data.value.orderId == Str(order)
       && (t.data.value.tenantId.Nothing? || t.data.value.tenantId == Str(i.tenantId))
       && t.sourceId.Str? && !Blank(t.sourceId.text) && t.observedAt.Str? && !Blank(t.observedAt.text)
       && t.data.value.status.Str? && !Blank(t.data.value.status.text) && |t.data.value.status.text| <= 256
  }

  /** The caller says who it is, its role lists the tool, and the tool is registered and only reads: without
      an approval token no other tool is used. */
  predicate Entitled(p: Policy, i: Identity) {
    && !Blank(i.userId) && !Blank(i.workspaceId) && !Blank(i.tenantId) && !Blank(i.role)
    && i.role in p.roles && "erp.get_order_status" in p.roles[i.role]
    && "erp.get_order_status" in p.tools && p.tools["erp.get_order_status"].Read?
  }

  /** The model answered with a text of bounded length, and named itself. */
  predicate Usable(m: ModelReply) {
    && m.Completes? && m.provider.Str? && m.model.Str? && m.text.Str?
    && !Blank(m.provider.text) && !Blank(m.model.text) && !Blank(m.text.text) && |m.text.text| <= 32_000
  }

  /** The tool is called exactly for entitled callers that gave a query and an order id, and with that id. */
  lemma CalledIff(rt: Runtime, q: Request, w: World, order: string)
    ensures ToolCall(order) in Events(rt, q, w) <==>
            && q.query.Some? && !Blank(q.query.value) && q.orderId.Some? && !Blank(q.orderId.value)
            && Entitled(rt.policy, q.identity) && order == Strip(q.orderId.value)
  {
    hide Blank, Strip, Verified, ModelEvents;
    if Given(q.query) && Given(q.orderId) && Authorize(rt.policy, q.identity, TOOL, "") == Allow {
      var called := Strip(q.orderId.value);
      assert ToolEvents(rt, q, w, called)[0] == ToolCall(called);
      assert Events(rt, q, w)[2] == ToolCall(called);
      if ToolCall(order) in ToolEvents(rt, q, w, called) { ToolEventsTell(rt, q, w, called, ToolCall(order)); }
    }
  }

  /** A run ends in success, in whole or part, exactly when the tool was called, the reply is proven, and no
      exception of the model passed through; a proven reply is never refused. The success is whole unless
      the caller consented to a model and it did not explain. */
  lemma SuccessIff(rt: Runtime, q: Request, w: World)
    ensures var called := ToolCall(Strip(if q.orderId.Some? then q.orderId.value else "")) in Events(rt, q, w);
            var asked := rt.hasModel && q.consent;
            && (StatusOf(rt, q, w) in {Some(Succeeded), Some(PartialSuccess)} <==> called && Proven(q, w) && !(asked && w.model.ModelRaises?))
            && (StatusOf(rt, q, w) == Some(PartialSuccess) <==> called && Proven(q, w) && asked && !w.model.ModelRaises? && !Usable(w.model))
            && (StatusOf(rt, q, w) == Some(Failed) <==> called && w.gateway.Replies? && !Proven(q, w))
            && (StatusOf(rt, q, w) == Some(Blocked) <==> !called)
  {
    var order := Strip(if q.orderId.Some? then q.orderId.value else "");
    CalledIff(rt, q, w, order);
    hide Blank, Strip, Events;
    if q.orderId.Some? && w.gateway.Replies? { ProvenIsVerified(q, w, order); }
  }

  lemma ProvenIsVerified(q: Request, w: World, order: string)
    requires q.orderId.Some? && w.gateway.Replies? && order == Strip(q.orderId.value)
    ensures Proven(q, w) <==> Verified(q.identity, order, w.gateway.result)
  {
    hide Blank, Strip;
  }

  /** One reply of the gateway never makes requests succeed for two orders, workspaces or tenants. */
  lemma OneReplyOneOrder(rt: Runtime, q: Request, w: World, rt': Runtime, q': Request, w': World)
    requires w.gateway == w'.gateway
    requires StatusOf(rt, q, w) in {Some(Succeeded), Some(PartialSuccess)} && StatusOf(rt', q', w') in {Some(Succeeded), Some(PartialSuccess)}
    ensures q.orderId.Some? && q'.orderId.Some? && Strip(q.orderId.value) == Strip(q'.orderId.value)
    ensures q.identity.workspaceId == q'.identity.workspaceId && q.identity.tenantId == q'.identity.tenantId
  {
    hide StatusOf, Events, Strip, Blank;
    SuccessIff(rt, q, w);
    SuccessIff(rt', q', w');
  }

  // ---------------------------------------------------------------- nothing in the grammar is superfluous

  /** The phases that only an end event leaves, and its status. */
  function EndOf(p: Phase): Option<Status> {
    match p
    case Declined => Some(Succeeded)
    case ExplainedUnspanned => Some(Succeeded)
    case Unexplained => Some(PartialSuccess)
    case Unverified => Some(Failed)
    case Refused => Some(Blocked)
    case _ => None
  }

  lemma LastEvent(p: Phase, word: seq<Event>, st: Status)
    requires Reach(p, word) == Done(st) && EndOf(p).Some?
    ensures word == [Ended(st)] && EndOf(p) == Some(st)
  {
    NoWayBack(word[1..]);
    DoneIsLast(EndOf(p).value, word[1..]);
    assert word == [word[0]] + word[1..];
  }

  lemma AfterExplanation(word: seq<Event>, st: Status) returns (lost: bool)
    requires Reach(Explained, word) == Done(st)
    ensures word == Lost(lost, false) + [Ended(Succeeded)]
  {
    NoWayBack(word[1..]);
    assert word == [word[0]] + word[1..];
    lost := word[0].SpanLost?;
    if lost {
      LastEvent(ExplainedUnspanned, word[1..], st);
    } else {
      DoneIsLast(Succeeded, word[1..]);
    }
  }

  lemma AfterModelCall(word: seq<Event>, st: Status) returns (m: ModelReply, lost: bool)
    requires Reach(Asking, word) == Done(st)
    ensures [ModelCall] + word == ModelEvents(true, true, m, lost)
  {
    NoWayBack(word[1..]);
    assert word == [word[0]] + word[1..];
    if word[0].ModelCompleted? {
      m := Completes(Str("p"), Str("m"), Str("t"));
      assert Explains(m);
      lost := AfterExplanation(word[1..], st);
    } else {
      m, lost := NoCompletion, word[0].SpanLost?;
      var rest := if lost then word[1..] else word;
      NoWayBack(rest[1..]);
      assert rest == [rest[0]] + rest[1..];
      LastEvent(Unexplained, rest[1..], st);
    }
  }

  lemma AfterCheck(word: seq<Event>, st: Status) returns (hasModel: bool, consent: bool, m: ModelReply, lost: bool)
    requires Reach(Checked, word) == Done(st)
    ensures word == ModelEvents(hasModel, consent, m, lost)
  {
    NoWayBack(word[1..]);
    assert word == [word[0]] + word[1..];
    hasModel, consent, m, lost := !word[0].Ended?, word[0].ModelCall?, NoCompletion, false;
    if word[0].Ended? {
      DoneIsLast(Succeeded, word[1..]);
    } else if word[0].ModelBlocked? {
      LastEvent(Declined, word[1..], st);
    } else {
      m, lost := AfterModelCall(word[1..], st);
    }
  }

  const SOMEONE := Identity("u", "w", "t", "r")

  function GoodResult(order: string): ToolResult {
    ToolResult(true, Some(Data(Str(order), Nothing, Str("s"))), Str("s"), Str("o"), Str(order), Str("w"), Str("t"))
  }

  lemma GoodIsVerified(order: string)
    ensures Verified(SOMEONE, order, GoodResult(order))
  {
    assert Written(Str("s")) && Written(Str("o"));
  }

  /** A result that is verified or not, successful or not, as the event says. */
  function ResultFor(e: Event, order: string): ToolResult
    requires e.ToolCompleted?
  {
    if e.verified then GoodResult(order) else GoodResult(order).(success := e.success, workspaceId := Nothing)
  }

  lemma ResultFits(e: Event, order: string)
    requires e.ToolCompleted? && (e.verified ==> e.success)
    ensures ResultFor(e, order).success == e.success && Verified(SOMEONE, order, ResultFor(e, order)) == e.verified
  {
    GoodIsVerified(order);
  }

  lemma AfterResult(e: Event, word: seq<Event>, st: Status) returns (hasModel: bool, consent: bool, m: ModelReply, lost: bool)
    requires e.ToolCompleted? && Reach(Move(Calling, e), word) == Done(st)
    ensures e.verified ==> e.success && word == ModelEvents(hasModel, consent, m, lost)
    ensures !e.verified ==> word == [Ended(Failed)]
  {
    hide ModelEvents;
    NoWayBack(word);
    if e.verified {
      hasModel, consent, m, lost := AfterCheck(word, st);
    } else {
      hasModel, consent, m, lost := false, false, NoCompletion, false;
      LastEvent(Unverified, word, st);
    }
  }

  lemma AfterToolCall(word: seq<Event>, st: Status, order: string) returns (e: Event, spanLost: bool, rest: seq<Event>)
    requires Reach(Calling, word) == Done(st)
    ensures e.ToolCompleted? && word == Lost(spanLost, true) + [e] + rest && Reach(Move(Calling, e), rest) == Done(st)
  {
    NoWayBack(word[1..]);
    assert word == [word[0]] + word[1..];
    spanLost := word[0].SpanLost?;
    var more := if spanLost then word[1..] else word;
    NoWayBack(more[1..]);
    assert more == [more[0]] + more[1..];
    e, rest := more[0], more[1..];
  }

  lemma SomeToolCall(word: seq<Event>, st: Status, order: string, p: Policy) returns (rt: Runtime, q: Request, w: World)
    requires Reach(Calling, word) == Done(st)
    ensures rt.policy == p && q == Request(Some("q"), SOMEONE, Some(order), q.consent) && ToolEvents(rt, q, w, order) == [ToolCall(order)] + word
  {
    hide ModelEvents, Verified, GoodResult, Reach;
    var e, spanLost, rest := AfterToolCall(word, st, order);
    var hasModel, consent, m, modelLost := AfterResult(e, rest, st);
    ResultFits(e, order);
    rt, q := Runtime(p, hasModel), Request(Some("q"), SOMEONE, Some(order), consent);
    w := World(Replies(ResultFor(e, order)), m, spanLost, modelLost);
  }

  function PolicyFor(o: Outcome): Policy {
    match o
    case Allow => Policy(map[TOOL := Approvals.Read], map["r" := {TOOL}])
    case Deny => Policy(map[], map[])
    case ApprovalRequired => Policy(map[TOOL := Approvals.Write], map["r" := {TOOL}])
  }

  lemma PolicyDecides(o: Outcome)
    ensures Authorize(PolicyFor(o), SOMEONE, TOOL, "") == o
  {
    assert Complete(SOMEONE);
  }

  /** Every finished trace of the grammar, with a trimmed order id, is the trace of some run. */
  lemma EveryTraceOccurs(word: seq<Event>, st: Status) returns (rt: Runtime, q: Request, w: World)
    requires Reach(Start, word) == Done(st)
    requires forall e <- word :: e.ToolCall? ==> e.order != "" && Strip(e.order) == e.order
    ensures Events(rt, q, w) == word
  {
    hide ToolEvents, Strip, Authorize;
    var rest := word[1..];
    NoWayBack(rest);
    assert word == [Created] + rest;
    w := World(GatewayRaises, NoCompletion, false, false);
    NoWayBack(rest[1..]);
    if rest[0].Ended? {
      DoneIsLast(Blocked, rest[1..]);
      assert rest == [Ended(Blocked)];
      rt, q := Runtime(PolicyFor(Deny), false), Request(None, SOMEONE, None, false);
    } else {
      assert word == [Created, rest[0]] + rest[1..];
      rt, q, w := SomeDecision(rest[0].outcome, rest[1..], st);
    }
  }

  lemma SomeDecision(o: Outcome, word: seq<Event>, st: Status) returns (rt: Runtime, q: Request, w: World)
    requires Reach(if o == Allow then Permitted else Refused, word) == Done(st)
    requires forall e <- word :: e.ToolCall? ==> e.order != "" && Strip(e.order) == e.order
    ensures Events(rt, q, w) == [Created, Decided(o)] + word
  {
    hide ToolEvents, Strip, Authorize;
    w := World(GatewayRaises, NoCompletion, false, false);
    PolicyDecides(o);
    QueryGiven();
    if o == Allow {
      NoWayBack(word[1..]);
      assert word == [word[0]] + word[1..];
      var order := word[0].order;
      rt, q, w := SomeToolCall(word[1..], st, order, PolicyFor(o));
    } else {
      LastEvent(Refused, word, st);
      rt, q := Runtime(PolicyFor(o), false), Request(Some("q"), SOMEONE, Some("q"), false);
    }
  }

  lemma QueryGiven()
    ensures Given(Some("q"))
  {}
}
