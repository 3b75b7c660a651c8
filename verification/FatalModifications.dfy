/** Which modifications put an end to a purchase thread although the authority accepts them. */
module FatalModifications {
  import opened Money
  import opened Entities
  import opened Negotiation
  import opened NegotiateNode
  import opened SupplierTools
  import opened Approvals
  import opened PurchaseWorkflow
  import opened WorkflowSafety
  import opened WorkflowTheorems
  import opened WorkflowBrief
  import opened EndlessRecovery

  /** Whatever happens from here on, the thread never negotiates. */
  ghost predicate NeverNegotiates(w: World) {
    forall events :: Run(w, events).node != NegotiateNode
  }

  /** Whatever happens from here on, the thread never calls a supplier. */
  ghost predicate NeverCalls(w: World) {
    forall events :: Run(w, events).calls == w.calls
  }

  // ----- a request is valid wherever the thread has got past find_supplier -----

  ghost predicate ValidPastDiscovery(st: State, node: Node) {
    node in {NegotiateNode, RiskCheckNode, CreateProposalNode, HumanApprovalNode, ExecuteOrderNode, VerifyResultNode}
    ==> st.Request().Valid()
  }

  lemma NodeKeepsValid(w: World, env: Env)
    requires ValidPastDiscovery(w.st, w.node) && w.node != ExecuteOrderNode
    ensures ValidPastDiscovery(AfterNode(w, env).st, AfterNode(w, env).node)
  {
  }

  lemma ExecutionKeepsValid(w: World, env: Env)
    requires ValidPastDiscovery(w.st, w.node) && w.node == ExecuteOrderNode
    ensures ValidPastDiscovery(AfterNode(w, env).st, AfterNode(w, env).node)
  {
  }

  lemma ResumeKeepsValid(w: World, call: ResumeCall)
    requires ValidPastDiscovery(w.st, w.node)
    ensures ValidPastDiscovery(AfterResume(w, call).st, AfterResume(w, call).node)
  {
  }

  lemma {:induction false} RunKeepsValid(w: World, events: seq<Event>)
    requires Started(w)
    ensures ValidPastDiscovery(Run(w, events).st, Run(w, events).node)
  {
    if events != [] {
      var before := Run(w, events[..|events| - 1]);
      RunKeepsValid(w, events[..|events| - 1]);
      match events[|events| - 1]
      case Resume(call) => ResumeKeepsValid(before, call);
      case RunNode(env) =>
        if before.node == ExecuteOrderNode {
          ExecutionKeepsValid(before, env);
        } else {
          NodeKeepsValid(before, env);
        }
    }
  }

  // ----- stock figures have passed the risk check; results are of past revisions -----

  ghost predicate CountedPastRisk(st: State, node: Node) {
    node in {CreateProposalNode, HumanApprovalNode, ExecuteOrderNode} ==> st.quantityOnHand >= 0 && st.reorderPoint >= 0
  }

  ghost predicate ResultsAreKnown(w: World) {
    forall key :: key in w.results ==> key.revision <= w.st.revision
  }

  lemma NodeKeepsCounted(w: World, env: Env)
    requires CountedPastRisk(w.st, w.node) && ResultsAreKnown(w)
    ensures CountedPastRisk(AfterNode(w, env).st, AfterNode(w, env).node) && ResultsAreKnown(AfterNode(w, env))
  {
    NodeUpdates(w, env);
  }

  lemma ResumeKeepsCounted(w: World, call: ResumeCall)
    requires CountedPastRisk(w.st, w.node) && ResultsAreKnown(w)
    ensures CountedPastRisk(AfterResume(w, call).st, AfterResume(w, call).node) && ResultsAreKnown(AfterResume(w, call))
  {
    ResumeUpdates(w, call);
  }

  lemma {:induction false} RunKeepsCounted(w: World, events: seq<Event>)
    requires Started(w)
    ensures CountedPastRisk(Run(w, events).st, Run(w, events).node) && ResultsAreKnown(Run(w, events))
  {
    if events != [] {
      RunKeepsCounted(w, events[..|events| - 1]);
      match events[|events| - 1]
      case Resume(call) => ResumeKeepsCounted(Run(w, events[..|events| - 1]), call);
      case RunNode(env) => NodeKeepsCounted(Run(w, events[..|events| - 1]), env);
    }
  }

  // ----- a limit under the target price -----

  /** find_supplier cannot build the request any more. */
  ghost predicate Doomed(w: World) {
    && w.node in {ForecastNode, FindSupplierNode, Aborted}
    && w.st.maxPrice < w.st.targetPrice
  }

  lemma StepStaysDoomed(w: World, e: Event)
    requires Doomed(w)
    ensures Doomed(Step(w, e)) && Step(w, e).calls == w.calls
  {
  }

  lemma {:induction false} RunStaysDoomed(w: World, events: seq<Event>)
    requires Doomed(w)
    ensures Doomed(Run(w, events)) && Run(w, events).calls == w.calls
  {
    if events != [] {
      RunStaysDoomed(w, events[..|events| - 1]);
      StepStaysDoomed(Run(w, events[..|events| - 1]), events[|events| - 1]);
    }
  }

  lemma DoomedIsOver(w: World)
    requires Doomed(w)
    ensures NeverNegotiates(w) && NeverCalls(w)
  {
    forall events
      ensures Run(w, events).node != NegotiateNode && Run(w, events).calls == w.calls
    {
      RunStaysDoomed(w, events);
    }
  }

  // ----- a quantity that cannot be ordered -----

  /** At least one unit, and within the spending limit at the lowest price there is, one paisa. */
  predicate CanBeOrdered(st: State, quantity: int) {
    ONE_UNIT <= quantity <= st.spendingLimit * ONE_UNIT
  }

  /** The merchant's quantity fails in negotiation, being under one unit, or else at the risk check. */
  ghost predicate Unorderable(w: World) {
    && w.node in {ForecastNode, FindSupplierNode, NegotiateNode, RiskCheckNode, End, Aborted}
    && w.st.merchantOverride && !CanBeOrdered(w.st, w.st.requiredQuantity)
    && (w.node == RiskCheckNode ==> w.st.requiredQuantity >= ONE_UNIT)
  }

  lemma NegotiationStaysUnorderable(w: World, env: Env)
    requires Unorderable(w) && w.node == NegotiateNode
    ensures Unorderable(AfterNode(w, env)) && AfterNode(w, env).calls == w.calls
  {
    if w.st.Request().Valid() {
      var outcome := NegotiateFrom(w.st.candidates, 0, w.st.Request(), w.adapters, env.counters, w.st.history);
      if outcome.Deal? {
        DealIsAcceptable(w.st.candidates, 0, w.st.Request(), w.adapters, env.counters, w.st.history);
      }
    }
  }

  lemma PriceOnlyAdds(quantity: nat, price: Price)
    ensures quantity * price >= quantity
  {
    assert quantity * price == quantity + quantity * (price - 1);
  }

  lemma RiskCheckStopsUnorderable(w: World, env: Env)
    requires Unorderable(w) && w.node == RiskCheckNode
    ensures Unorderable(AfterNode(w, env)) && AfterNode(w, env).calls == w.calls
  {
    if w.st.selected.Some? {
      var quote := w.st.selected.value;
      PriceOnlyAdds(w.st.requiredQuantity, quote.unitPrice);
      assert !Passes(WithinSpendingLimit, w.st, w.st.ProposalFor(quote), quote);
      assert RiskStep(w.st).Some? ==> WithinSpendingLimit in RiskReasons(w.st, w.st.ProposalFor(quote), quote);
    }
  }

  lemma StepStaysUnorderable(w: World, e: Event)
    requires Unorderable(w)
    ensures Unorderable(Step(w, e)) && Step(w, e).calls == w.calls
  {
    if e.RunNode? {
      if w.node == NegotiateNode {
        NegotiationStaysUnorderable(w, e.env);
      } else if w.node == RiskCheckNode {
        RiskCheckStopsUnorderable(w, e.env);
      }
    }
  }

  lemma {:induction false} RunStaysUnorderable(w: World, events: seq<Event>)
    requires Unorderable(w)
    ensures Unorderable(Run(w, events)) && Run(w, events).calls == w.calls
  {
    if events != [] {
      RunStaysUnorderable(w, events[..|events| - 1]);
      StepStaysUnorderable(Run(w, events[..|events| - 1]), events[|events| - 1]);
    }
  }

  // ----- the way to an order -----

  /** What an order takes, apart from a willing supplier and merchant. */
  ghost predicate CanOrderFrom(w: World, supplierId: SupplierId) {
    && w.st.Request().Valid() && w.st.merchantOverride && CanBeOrdered(w.st, w.st.requiredQuantity)
    && w.st.attempted == [] && IsPreferred(w.st, supplierId) && CanServe(w.adapters, supplierId)
    && w.st.quantityOnHand >= 0 && w.st.reorderPoint >= 0
    && ExecutionKey(w.st.requestId, w.st.revision) !in w.results
  }

  /** One node further, and nothing has changed that an order depends on. */
  ghost predicate Onward(before: World, w: World, node: Node, supplierId: SupplierId) {
    && w.node == node && CanOrderFrom(w, supplierId)
    && w.st.Request() == before.st.Request() && w.ttl == before.ttl
    && w.calls == before.calls && w.authority == before.authority
  }

  /** The supplier offers the whole quantity at one paisa, at once. */
  function Offer(request: PurchaseRequest, supplierId: SupplierId): SupplierQuote
    requires request.Valid()
  {
    SupplierQuote(supplierId, request.sku, request.quantity, 1, 0, "", 0)
  }

  function Offering(request: PurchaseRequest, supplierId: SupplierId, approvalId: ApprovalId, now: Instant): Env
    requires request.Valid()
  {
    Env(now, 0, [Quotes([Offer(request, supplierId)])], [], approvalId, 0, PlaceRaised)
  }

  lemma OneAnswer(reply: DiscoverReply)
    requires reply.Quotes?
    ensures Answered([reply]) == reply.quotes
  {
    assert [reply][..0] == [];
  }

  lemma OneIsSorted(quote: SupplierQuote)
    ensures SortQuotes([quote]) == [quote]
  {
    assert [quote][..0] == [];
    assert Insert(quote, []) == [quote];
  }

  lemma OneQuoteIsCollected(quote: SupplierQuote)
    ensures Collected([Quotes([quote])]) == Some([quote])
  {
    OneAnswer(Quotes([quote]));
    OneIsSorted(quote);
  }

  lemma ForecastGoesOn(w: World, supplierId: SupplierId, env: Env)
    requires w.node == ForecastNode && CanOrderFrom(w, supplierId)
    ensures Onward(w, AfterNode(w, env), FindSupplierNode, supplierId)
  {
  }

  lemma DiscoveryGoesOn(w: World, supplierId: SupplierId, approvalId: ApprovalId, now: Instant)
    requires w.node == FindSupplierNode && CanOrderFrom(w, supplierId)
    ensures var after := AfterNode(w, Offering(w.st.Request(), supplierId, approvalId, now));
      Onward(w, after, NegotiateNode, supplierId) && after.st.candidates == [Offer(w.st.Request(), supplierId)]
  {
    var offer := Offer(w.st.Request(), supplierId);
    OneQuoteIsCollected(offer);
    assert Filtered(w.st, [offer]) == [offer];
  }

  /** The offer passes every check and is not above the target price. */
  lemma OfferIsTaken(request: PurchaseRequest, supplierId: SupplierId, adapters: seq<Adapter>,
                     history: seq<HistoryEntry>)
    requires request.Valid() && request.quantity >= ONE_UNIT && CanServe(adapters, supplierId)
    ensures var offer := Offer(request, supplierId);
      var outcome := NegotiateFrom([offer], 0, request, adapters, [], history);
      outcome.Deal? && outcome.quote == offer
  {
    var offer := Offer(request, supplierId);
    assert OfferFailures(offer, request, ConstraintsFor(offer, request), 1) == [];
    assert Judge(offer, request, adapters, ReplyAt([], 0)) == Agrees(offer);
    FirstNonRefusalDecides([offer], 0, request, adapters, [], history);
  }

  lemma NegotiationGoesOn(w: World, supplierId: SupplierId, env: Env)
    requires w.node == NegotiateNode && CanOrderFrom(w, supplierId)
    requires w.st.candidates == [Offer(w.st.Request(), supplierId)] && env.counters == []
    ensures var after := AfterNode(w, env);
      Onward(w, after, RiskCheckNode, supplierId) && after.st.selected == Some(Offer(w.st.Request(), supplierId))
  {
    OfferIsTaken(w.st.Request(), supplierId, w.adapters, w.st.history);
  }

  lemma RiskCheckGoesOn(w: World, supplierId: SupplierId, env: Env)
    requires w.node == RiskCheckNode && CanOrderFrom(w, supplierId)
    requires w.st.selected == Some(Offer(w.st.Request(), supplierId))
    ensures var after := AfterNode(w, env);
      Onward(w, after, CreateProposalNode, supplierId) && after.st.selected == w.st.selected
  {
    var offer := w.st.selected.value;
    assert w.st.ProposalFor(offer).TotalAmount() == w.st.requiredQuantity;
    assert RiskReasons(w.st, w.st.ProposalFor(offer), offer) == [];
  }

  /** The thread holds a proposal and the token of its approval, pending or approved. */
  ghost predicate HoldsProposal(w: World, node: Node, supplierId: SupplierId, status: ApprovalStatus,
                                expiresAt: Instant) {
    && w.node == node && CanOrderFrom(w, supplierId)
    && w.st.proposal.Some? && w.st.proposal.value.supplierId == supplierId
    && w.st.approvalId in w.authority.records
    && var record := w.authority.records[w.st.approvalId];
       && record.approvalId == w.st.approvalId && record.status == status && record.expiresAt == expiresAt
       && record.orderHash == CanonicalOrderHash(w.st.proposal.value)
       && w.st.approvalToken == Signed(ClaimsOf(record))
  }

  lemma ProposalGoesOn(w: World, supplierId: SupplierId, env: Env)
    requires w.node == CreateProposalNode && CanOrderFrom(w, supplierId)
    requires w.st.selected == Some(Offer(w.st.Request(), supplierId)) && env.approvalId !in w.authority.records
    ensures var after := AfterNode(w, env);
      HoldsProposal(after, HumanApprovalNode, supplierId, Pending, env.now + w.ttl) && after.calls == w.calls
  {
  }

  lemma ApprovalGoesOn(w: World, supplierId: SupplierId, expiresAt: Instant, now: Instant)
    requires HoldsProposal(w, HumanApprovalNode, supplierId, Pending, expiresAt) && now < expiresAt
    ensures var after := AfterResume(w, OwnApproval(w, now));
      HoldsProposal(after, ExecuteOrderNode, supplierId, ApprovalStatus.Approved, expiresAt) && after.calls == w.calls
  {
    var call := OwnApproval(w, now);
    assert DecisionFailure(w.authority, w.st.approvalId, call.merchantId, call.token, now).None?;
  }

  lemma ExecutionCalls(w: World, supplierId: SupplierId, expiresAt: Instant, env: Env)
    requires HoldsProposal(w, ExecuteOrderNode, supplierId, ApprovalStatus.Approved, expiresAt) && env.now < expiresAt
    ensures AfterNode(w, env).calls != w.calls
  {
    var key := ExecutionKey(w.st.requestId, w.st.revision);
    assert CallsSupplier(w.results, w.authority, w.adapters, w.st.proposal.value, w.st.approvalId, w.st.approvalToken,
                         key, env.now);
  }

  lemma {:induction false} FreshId(taken: set<ApprovalId>) returns (id: ApprovalId)
    ensures forall other :: other in taken ==> other < id
    decreases |taken|
  {
    if taken == {} {
      id := 0;
    } else {
      var some :| some in taken;
      var below := FreshId(taken - {some});
      id := if some < below then below else some + 1;
      assert forall other :: other in taken ==> other == some || other in taken - {some};
    }
  }

  /** The clock of every event is the given time. */
  ghost predicate AllAt(events: seq<Event>, now: Instant) {
    forall e :: e in events ==> (if e.RunNode? then e.env.now else e.call.now) == now
  }

  /** Five nodes, the merchant's approval, and the execution. */
  function Course(e: Event, approval: Event, execution: Event): seq<Event> {
    [e, e, e, e] + [e, approval] + [execution]
  }

  lemma RunCourse(w: World, e: Event, approval: Event, execution: Event)
    ensures Run(w, Course(e, approval, execution))
         == Step(Step(Step(Step(Step(Step(Step(w, e), e), e), e), e), approval), execution)
  {
    var proposed := [e, e, e, e];
    RunFour(w, e, e, e, e);
    RunTwo(Run(w, proposed), e, approval);
    RunConcat(w, proposed, [e, approval]);
    RunOneMore(w, proposed + [e, approval], execution);
  }

  /** The first part of the course, up to the risk check. */
  lemma OfferIsReached(w: World, supplierId: SupplierId, approvalId: ApprovalId, now: Instant)
    requires w.node == ForecastNode && CanOrderFrom(w, supplierId)
    ensures var e := RunNode(Offering(w.st.Request(), supplierId, approvalId, now));
      var after := Step(Step(Step(w, e), e), e);
      Onward(w, after, RiskCheckNode, supplierId) && after.st.selected == Some(Offer(w.st.Request(), supplierId))
  {
    var env := Offering(w.st.Request(), supplierId, approvalId, now);
    ForecastGoesOn(w, supplierId, env);
    DiscoveryGoesOn(AfterNode(w, env), supplierId, approvalId, now);
    NegotiationGoesOn(AfterNode(AfterNode(w, env), env), supplierId, env);
  }

  /** From there to the gate. */
  lemma GateIsNear(w: World, supplierId: SupplierId, approvalId: ApprovalId, now: Instant)
    requires w.node == RiskCheckNode && CanOrderFrom(w, supplierId) && approvalId !in w.authority.records
    requires w.st.selected == Some(Offer(w.st.Request(), supplierId))
    ensures var e := RunNode(Offering(w.st.Request(), supplierId, approvalId, now));
      && HoldsProposal(Step(Step(w, e), e), HumanApprovalNode, supplierId, Pending, now + w.ttl)
      && Step(Step(w, e), e).calls == w.calls
  {
    var env := Offering(w.st.Request(), supplierId, approvalId, now);
    RiskCheckGoesOn(w, supplierId, env);
    ProposalGoesOn(AfterNode(w, env), supplierId, env);
  }

  lemma GateIsFive(w: World, supplierId: SupplierId, approvalId: ApprovalId, now: Instant) returns (gate: World)
    requires w.node == ForecastNode && CanOrderFrom(w, supplierId) && approvalId !in w.authority.records
    ensures var e := RunNode(Offering(w.st.Request(), supplierId, approvalId, now));
      gate == Step(Step(Step(Step(Step(w, e), e), e), e), e)
    ensures HoldsProposal(gate, HumanApprovalNode, supplierId, Pending, now + w.ttl) && gate.calls == w.calls
  {
    var e := RunNode(Offering(w.st.Request(), supplierId, approvalId, now));
    var offered := Step(Step(Step(w, e), e), e);
    OfferIsReached(w, supplierId, approvalId, now);
    GateIsNear(offered, supplierId, approvalId, now);
    gate := Step(Step(offered, e), e);
  }

  lemma GateLeadsToACall(gate: World, supplierId: SupplierId, expiresAt: Instant, now: Instant, env: Env)
    requires HoldsProposal(gate, HumanApprovalNode, supplierId, Pending, expiresAt) && env.now == now < expiresAt
    ensures Step(Step(gate, Resume(OwnApproval(gate, now))), RunNode(env)).calls != gate.calls
  {
    ApprovalGoesOn(gate, supplierId, expiresAt, now);
    ExecutionCalls(AfterResume(gate, OwnApproval(gate, now)), supplierId, expiresAt, env);
  }

  lemma CourseIsAt(e: Event, approval: Event, execution: Event, now: Instant)
    requires AllAt([e], now) && AllAt([approval], now) && AllAt([execution], now)
    ensures AllAt(Course(e, approval, execution), now)
  {
    assert e in [e] && approval in [approval] && execution in [execution];
  }

  /** An order is reached whenever one is possible: proposed at one time, approved and executed at
      another one before the approval lapses. */
  lemma OrderIsReached(w: World, supplierId: SupplierId, proposed: Instant, approved: Instant)
    returns (events: seq<Event>)
    requires w.node == ForecastNode && CanOrderFrom(w, supplierId) && approved < proposed + w.ttl
    ensures Run(w, events).calls != w.calls
    ensures proposed == approved ==> AllAt(events, approved)
  {
    var id := FreshId(w.authority.records.Keys);
    var gate := GateIsFive(w, supplierId, id, proposed);
    var e := RunNode(Offering(w.st.Request(), supplierId, id, proposed));
    var approval := Resume(OwnApproval(gate, approved));
    var execution := RunNode(Offering(w.st.Request(), supplierId, id, approved));
    events := Course(e, approval, execution);
    assert Run(w, events) == Step(Step(gate, approval), execution) by { RunCourse(w, e, approval, execution); }
    GateLeadsToACall(gate, supplierId, proposed + w.ttl, approved, execution.env);
    if proposed == approved {
      CourseIsAt(e, approval, execution, approved);
    }
  }

  /** A call can be reached with the clock standing at the given time. */
  ghost predicate CanCallAt(w: World, now: Instant) {
    exists events :: AllAt(events, now) && Run(w, events).calls != w.calls
  }

  lemma OrdersAreReached(w: World, supplierId: SupplierId)
    requires w.node == ForecastNode && CanOrderFrom(w, supplierId)
    ensures !NeverCalls(w)
    ensures w.ttl > 0 ==> forall now: Instant :: CanCallAt(w, now)
  {
    var events := OrderIsReached(w, supplierId, 1, 0);
    assert Run(w, events).calls != w.calls;
    if w.ttl > 0 {
      forall now: Instant
        ensures CanCallAt(w, now)
      {
        var at := OrderIsReached(w, supplierId, now, now);
      }
    }
  }

  // ----- the exact conditions -----

  /** No limit is given, the quantity is not positive, or the price limit is under the target price. */
  predicate StopsNegotiation(st: State, call: ResumeCall) {
    || (call.quantity.None? && call.maxUnitPrice.None?)
    || (call.quantity.Some? && call.quantity.value <= 0)
    || (call.maxUnitPrice.Some? && call.maxUnitPrice.value < st.targetPrice)
  }

  /** That, or a quantity under one unit or beyond the spending limit at any price. */
  predicate IsFatal(st: State, call: ResumeCall) {
    || StopsNegotiation(st, call)
    || (call.quantity.Some? && !CanBeOrdered(st, call.quantity.value))
  }

  lemma UsableModification(w: World, call: ResumeCall)
    requires !NotResumable(w, call) && call.action == Modified && DecisionOf(call).Some?
    requires DecisionFailure(w.authority, w.st.approvalId, call.merchantId, call.token, call.now).None?
    requires w.st.Request().Valid() && CanBeOrdered(w.st, w.st.requiredQuantity)
    ensures var after := AfterResume(w, call);
      && after.node == ForecastNode && after.st.attempted == [] && after.st.merchantOverride
      && after.st.revision == w.st.revision + 1 && after.results == w.results && after.adapters == w.adapters
      && SameBrief(w.st, after.st)
      && (StopsNegotiation(w.st, call) ==> Doomed(after))
      && (!StopsNegotiation(w.st, call) ==> after.st.Request().Valid())
      && (CanBeOrdered(after.st, after.st.requiredQuantity) <==>
            call.quantity.None? || CanBeOrdered(w.st, call.quantity.value))
  {
  }

  /** What is known of a thread that waits at its gate. */
  lemma GateIsReady(w: World, prefix: seq<Event>)
    requires Started(w) && Run(w, prefix).node == HumanApprovalNode
    ensures var gate := Run(w, prefix);
      && gate.st.Request().Valid() && CanBeOrdered(gate.st, gate.st.requiredQuantity)
      && gate.st.selected.Some? && IsPreferred(gate.st, gate.st.selected.value.supplierId)
      && CanServe(gate.adapters, gate.st.selected.value.supplierId)
      && gate.st.quantityOnHand >= 0 && gate.st.reorderPoint >= 0
      && ResultsAreKnown(gate) && gate.ttl == w.ttl
  {
    RunKeepsInv(w, prefix);
    RunKeepsBrief(w, prefix);
    RunKeepsServed(w, prefix);
    RunKeepsValid(w, prefix);
    RunKeepsCounted(w, prefix);
    var st := Run(w, prefix).st;
    PriceOnlyAdds(st.requiredQuantity, st.selected.value.unitPrice);
  }

  /** After an accepted modification that can be ordered, an order can be reached. */
  lemma OrderableIsAlive(w: World, prefix: seq<Event>, call: ResumeCall)
    requires Started(w) && call.action == Modified
    requires var gate := Run(w, prefix);
      && !NotResumable(gate, call) && !IsFatal(gate.st, call)
      && DecisionFailure(gate.authority, gate.st.approvalId, call.merchantId, call.token, call.now).None?
    ensures var gate, after := Run(w, prefix), AfterResume(Run(w, prefix), call);
      && gate.st.selected.Some? && after.ttl == w.ttl
      && after.node == ForecastNode && CanOrderFrom(after, gate.st.selected.value.supplierId)
  {
    GateIsReady(w, prefix);
    UsableModification(Run(w, prefix), call);
  }

  /** The authority's acceptance uses the approval up before anything looks at the new limits. After an
      accepted modification the thread never calls a supplier again exactly if the modification gives no
      limit, a price limit under the target price, a quantity under one unit, or one beyond the spending
      limit at a paisa a unit. After any other one an order can still be reached, at any time of the
      clock if approvals last at all. */
  lemma {:induction false} ModificationIsFatalExactly(w: World, prefix: seq<Event>, call: ResumeCall)
    requires Started(w) && call.action == Modified
    requires var gate := Run(w, prefix);
      && !NotResumable(gate, call)
      && DecisionFailure(gate.authority, gate.st.approvalId, call.merchantId, call.token, call.now).None?
    ensures NeverCalls(AfterResume(Run(w, prefix), call)) <==> IsFatal(Run(w, prefix).st, call)
    ensures !IsFatal(Run(w, prefix).st, call) && w.ttl > 0 ==>
      forall now: Instant :: CanCallAt(AfterResume(Run(w, prefix), call), now)
  {
    GateIsReady(w, prefix);
    if DecisionOf(call).None? {
      UndecidedNeverCalls(Run(w, prefix), call);
    } else if IsFatal(Run(w, prefix).st, call) {
      FatalIsOver(Run(w, prefix), call);
    } else {
      OrderableIsAlive(w, prefix, call);
      OrdersAreReached(AfterResume(Run(w, prefix), call), Run(w, prefix).st.selected.value.supplierId);
    }
  }

  lemma UndecidedNeverCalls(gate: World, call: ResumeCall)
    requires !NotResumable(gate, call) && call.action == Modified && DecisionOf(call).None?
    requires DecisionFailure(gate.authority, gate.st.approvalId, call.merchantId, call.token, call.now).None?
    ensures NeverNegotiates(AfterResume(gate, call)) && NeverCalls(AfterResume(gate, call))
  {
    var after := AfterResume(gate, call);
    forall events
      ensures Run(after, events).node == HumanApprovalNode && Run(after, events).calls == after.calls
    {
      DecidedGateIsStuck(after, events);
    }
  }

  lemma FatalIsOver(gate: World, call: ResumeCall)
    requires !NotResumable(gate, call) && call.action == Modified && DecisionOf(call).Some?
    requires DecisionFailure(gate.authority, gate.st.approvalId, call.merchantId, call.token, call.now).None?
    requires gate.st.Request().Valid() && CanBeOrdered(gate.st, gate.st.requiredQuantity) && IsFatal(gate.st, call)
    ensures NeverCalls(AfterResume(gate, call))
  {
    var after := AfterResume(gate, call);
    UsableModification(gate, call);
    if StopsNegotiation(gate.st, call) {
      DoomedIsOver(after);
    } else {
      forall events
        ensures Run(after, events).calls == after.calls
      {
        RunStaysUnorderable(after, events);
      }
    }
  }

  lemma DiscoveryNegotiates(w: World, supplierId: SupplierId, env: Env)
    requires w.node == FindSupplierNode && w.st.Request().Valid()
    requires w.st.attempted == [] && IsPreferred(w.st, supplierId)
    requires env.discovered == [Quotes([Offer(w.st.Request(), supplierId)])]
    ensures AfterNode(w, env).node == NegotiateNode
  {
    var offer := Offer(w.st.Request(), supplierId);
    OneQuoteIsCollected(offer);
    assert Filtered(w.st, [offer]) == [offer];
  }

  lemma ValidRequestNegotiates(w: World, supplierId: SupplierId)
    requires w.node == ForecastNode && w.st.Request().Valid() && w.st.merchantOverride
    requires w.st.attempted == [] && IsPreferred(w.st, supplierId)
    ensures !NeverNegotiates(w)
  {
    var e := RunNode(Offering(w.st.Request(), supplierId, 0, 0));
    DiscoveryNegotiates(Step(w, e), supplierId, e.env);
    RunTwo(w, e, e);
    assert Run(w, [e, e]).node == NegotiateNode;
  }

  /** It never even negotiates again exactly if it gives no limit, a quantity that is not positive, or
      a price limit under the target price. */
  lemma {:induction false} NegotiationIsOverExactly(w: World, prefix: seq<Event>, call: ResumeCall)
    requires Started(w) && call.action == Modified
    requires var gate := Run(w, prefix);
      && !NotResumable(gate, call)
      && DecisionFailure(gate.authority, gate.st.approvalId, call.merchantId, call.token, call.now).None?
    ensures NeverNegotiates(AfterResume(Run(w, prefix), call)) <==> StopsNegotiation(Run(w, prefix).st, call)
  {
    var gate := Run(w, prefix);
    var after := AfterResume(gate, call);
    GateIsReady(w, prefix);
    if DecisionOf(call).None? {
      UndecidedNeverCalls(gate, call);
    } else {
      UsableModification(gate, call);
      if StopsNegotiation(gate.st, call) {
        DoomedIsOver(after);
      } else {
        ValidRequestNegotiates(after, gate.st.selected.value.supplierId);
      }
    }
  }

  // ----- all of this is reachable -----

  /** The events that bring the thread of EndlessRecovery to its gate for the first time. */
  function ToTheGate(): seq<Event> { [At(0), At(0)] + [At(1), At(1), At(1), At(1)] }

  function Modifying(quantity: Option<int>, maxUnitPrice: Option<int>): ResumeCall {
    var token := Signed(ClaimsOf(NewRecord(START.ProposalFor(OFFER), 1, 0, 1)));
    ResumeCall(0, Modified, token, quantity, maxUnitPrice, None, None, 0)
  }

  function Changed(quantity: Option<int>, maxUnitPrice: Option<int>): World {
    AfterResume(Run(ORIGIN, ToTheGate()), Modifying(quantity, maxUnitPrice))
  }

  lemma GateIsReached()
    ensures HoldsApproval(Run(ORIGIN, ToTheGate()), 1, HumanApprovalNode, Pending)
  {
    RoundsCircle(0);
    RunConcat(ORIGIN, Rounds(0), [At(1), At(1), At(1), At(1)]);
    RunFour(Run(ORIGIN, Rounds(0)), At(1), At(1), At(1), At(1));
    ReachesGate(Run(ORIGIN, Rounds(0)), 1);
  }

  lemma ModifyingIsJudged(quantity: Option<int>, maxUnitPrice: Option<int>)
    ensures var call := Modifying(quantity, maxUnitPrice);
      && (NeverCalls(Changed(quantity, maxUnitPrice)) <==> IsFatal(START, call))
      && (NeverNegotiates(Changed(quantity, maxUnitPrice)) <==> StopsNegotiation(START, call))
  {
    var gate, call := Run(ORIGIN, ToTheGate()), Modifying(quantity, maxUnitPrice);
    GateIsReached();
    assert ClaimsOf(gate.authority.records[1]) == call.token.claims;
    assert DecisionFailure(gate.authority, gate.st.approvalId, call.merchantId, call.token, call.now).None?;
    ModificationIsFatalExactly(ORIGIN, ToTheGate(), call);
    NegotiationIsOverExactly(ORIGIN, ToTheGate(), call);
  }

  lemma OriginIsStarted()
    ensures Started(ORIGIN)
    ensures DecisionOf(Modifying(None, Some(1))).Some? && DecisionOf(Modifying(Some(500), None)).Some?
  {
  }

  lemma PricesAreJudged()
    ensures NeverNegotiates(Changed(None, Some(1))) && NeverCalls(Changed(None, Some(1)))
    ensures NeverNegotiates(Changed(None, None)) && NeverCalls(Changed(None, None))
    ensures !NeverCalls(Changed(None, Some(2)))
  {
    ModifyingIsJudged(None, Some(1));
    ModifyingIsJudged(None, None);
    ModifyingIsJudged(None, Some(2));
  }

  lemma QuantitiesAreJudged()
    ensures !NeverNegotiates(Changed(Some(500), None)) && NeverCalls(Changed(Some(500), None))
    ensures !NeverNegotiates(Changed(Some(2001), None)) && NeverCalls(Changed(Some(2001), None))
    ensures !NeverCalls(Changed(Some(2000), None))
  {
    ModifyingIsJudged(Some(500), None);
    ModifyingIsJudged(Some(2001), None);
    ModifyingIsJudged(Some(2000), None);
  }

  /** A thread with target price 2 and spending limit 2 at its gate. A price limit of 1, which resume
      takes for usable, and no limit at all end it; half a unit, and a little over two, still let it
      negotiate but never order; a price limit of 2 leaves it alive. */
  lemma LowLimitIsFatal()
    ensures Started(ORIGIN)
    ensures DecisionOf(Modifying(None, Some(1))).Some? && DecisionOf(Modifying(Some(500), None)).Some?
    ensures NeverNegotiates(Changed(None, Some(1))) && NeverCalls(Changed(None, Some(1)))
    ensures NeverNegotiates(Changed(None, None)) && NeverCalls(Changed(None, None))
    ensures !NeverNegotiates(Changed(Some(500), None)) && NeverCalls(Changed(Some(500), None))
    ensures !NeverNegotiates(Changed(Some(2001), None)) && NeverCalls(Changed(Some(2001), None))
    ensures !NeverCalls(Changed(None, Some(2))) && !NeverCalls(Changed(Some(2000), None))
  {
    PricesAreJudged();
    QuantitiesAreJudged();
    OriginIsStarted();
  }
}
