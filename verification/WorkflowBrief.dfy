/** Orders keep to what the thread was started for and to what the merchant last changed. */
module WorkflowBrief {
  import opened Money
  import opened Entities
  import opened NegotiateNode
  import opened SupplierTools
  import opened Approvals
  import opened PurchaseWorkflow
  import opened WorkflowSafety

  /** What no node ever writes. */
  ghost predicate SameBrief(brief: State, st: State) {
    && st.merchantId == brief.merchantId && st.storeId == brief.storeId && st.requestId == brief.requestId
    && st.sku == brief.sku && st.unit == brief.unit && st.targetPrice == brief.targetPrice
    && st.spendingLimit == brief.spendingLimit && st.deliveryRequirement == brief.deliveryRequirement
    && st.quantityOnHand == brief.quantityOnHand && st.reorderPoint == brief.reorderPoint
    && st.preferredSupplier == brief.preferredSupplier
  }

  predicate IsPreferred(brief: State, supplierId: SupplierId) {
    brief.preferredSupplier.None? || supplierId == brief.preferredSupplier.value
  }

  /** Whoever the thread is talking to is the preferred supplier, if there is one. */
  ghost predicate TalksToPreferred(brief: State, st: State, node: Node) {
    match node
    case NegotiateNode => forall q :: q in st.candidates ==> IsPreferred(brief, q.supplierId)
    case RiskCheckNode => st.selected.Some? ==> IsPreferred(brief, st.selected.value.supplierId)
    case CreateProposalNode => st.selected.Some? ==> IsPreferred(brief, st.selected.value.supplierId)
    case HumanApprovalNode => st.selected.Some? ==> IsPreferred(brief, st.selected.value.supplierId)
    case ExecuteOrderNode => st.selected.Some? ==> IsPreferred(brief, st.selected.value.supplierId)
    case _ => true
  }

  predicate IsNeeded(brief: State) { brief.quantityOnHand <= brief.reorderPoint }

  /** The order is for what the thread was started for. */
  ghost predicate KeepsToBrief(brief: State, c: Call) {
    && IsNeeded(brief)
    && SameBrief(brief, c.st)
    && c.key == ExecutionKey(brief.requestId, c.st.revision)
    && c.proposal.proposalId == ProposalId(brief.requestId, c.st.revision)
    && c.proposal.merchantId == brief.merchantId && c.proposal.storeId == brief.storeId
    && c.proposal.sku == brief.sku && c.proposal.unit == brief.unit
    && c.proposal.quantity == c.st.requiredQuantity
    && IsPreferred(brief, c.proposal.supplierId)
    && c.proposal.deliveryAt <= brief.deliveryRequirement
    && c.proposal.TotalAmount() <= brief.spendingLimit * ONE_UNIT
  }

  /** In the first revision the forecast can only raise the quantity, and not against the merchant. */
  ghost predicate FirstQuantity(brief: State, st: State) {
    && st.revision >= 1
    && (st.revision == 1 ==>
          && st.merchantOverride == brief.merchantOverride
          && st.requiredQuantity >= brief.requiredQuantity
          && (brief.merchantOverride ==> st.requiredQuantity == brief.requiredQuantity))
  }

  ghost predicate BriefInv(brief: State, w: World) {
    && SameBrief(brief, w.st)
    && TalksToPreferred(brief, w.st, w.node)
    && FirstQuantity(brief, w.st)
    && (w.node != DetectNeedNode && w.node != End ==> IsNeeded(brief))
    && (forall c :: c in w.calls ==>
          KeepsToBrief(brief, c) && FirstQuantity(brief, c.st) && c.st.revision <= w.st.revision)
  }

  /** A node leaves the brief and the merchant's limits alone, but for the forecast, which may raise
      a quantity the merchant did not set. */
  ghost predicate NodeUpdate(before: State, after: State) {
    && SameBrief(before, after)
    && after.revision == before.revision && after.maxPrice == before.maxPrice
    && after.merchantOverride == before.merchantOverride
    && after.requiredQuantity >= before.requiredQuantity
    && (before.merchantOverride ==> after.requiredQuantity == before.requiredQuantity)
  }

  lemma SupplyNodesUpdate(st: State, shortage: nat, discovered: seq<DiscoverReply>, adapters: seq<Adapter>,
                          counters: seq<CounterReply>)
    ensures NodeUpdate(st, DetectNeed(st)) && NodeUpdate(st, ForecastDemand(st, shortage))
    ensures FindSupplier(st, discovered).Some? ==> NodeUpdate(st, FindSupplier(st, discovered).value)
    ensures NegotiateStep(st, adapters, counters).Some? ==> NodeUpdate(st, NegotiateStep(st, adapters, counters).value)
  {
  }

  lemma OrderNodesUpdate(st: State, supplierId: SupplierId, answer: Answer)
    ensures RiskStep(st).Some? ==> NodeUpdate(st, RiskStep(st).value)
    ensures NodeUpdate(st, ExecuteOrder(st, supplierId, answer)) && NodeUpdate(st, VerifyResult(st))
  {
  }

  lemma NodeUpdates(w: World, env: Env)
    ensures NodeUpdate(w.st, AfterNode(w, env).st)
  {
    match w.node
    case CreateProposalNode =>
    case ExecuteOrderNode =>
      if w.st.proposal.Some? {
        var key := ExecutionKey(w.st.requestId, w.st.revision);
        OrderNodesUpdate(w.st, w.st.proposal.value.supplierId,
                         ExecuteAnswer(w.results, w.authority, w.adapters, w.st.proposal.value, w.st.approvalId,
                                       w.st.approvalToken, key, env.now, env.reply));
      }
    case _ =>
      SupplyNodesUpdate(w.st, env.shortage, env.discovered, w.adapters, env.counters);
      OrderNodesUpdate(w.st, 0, Threw(SupplierError));
  }

  lemma ResumeUpdates(w: World, call: ResumeCall)
    ensures SameBrief(w.st, AfterResume(w, call).st)
    ensures NodeUpdate(w.st, AfterResume(w, call).st) || AfterResume(w, call).st.revision == w.st.revision + 1
  {
  }

  lemma StepUpdates(w: World, e: Event)
    ensures SameBrief(w.st, Step(w, e).st)
    ensures NodeUpdate(w.st, Step(w, e).st) || Step(w, e).st.revision == w.st.revision + 1
  {
    match e
    case RunNode(env) => NodeUpdates(w, env);
    case Resume(call) => ResumeUpdates(w, call);
  }

  lemma StepKeepsFields(brief: State, w: World, e: Event)
    requires SameBrief(brief, w.st) && FirstQuantity(brief, w.st)
    ensures SameBrief(brief, Step(w, e).st) && FirstQuantity(brief, Step(w, e).st)
    ensures Step(w, e).st.revision >= w.st.revision
  {
    StepUpdates(w, e);
  }

  lemma StepKeepsNeed(brief: State, w: World, e: Event)
    requires SameBrief(brief, w.st) && (w.node != DetectNeedNode && w.node != End ==> IsNeeded(brief))
    ensures Step(w, e).node != DetectNeedNode && Step(w, e).node != End ==> IsNeeded(brief)
  {
  }

  lemma NegotiationStaysPreferred(brief: State, w: World, env: Env)
    requires Inv(w) && w.node == NegotiateNode && TalksToPreferred(brief, w.st, w.node)
    ensures TalksToPreferred(brief, AfterNode(w, env).st, AfterNode(w, env).node)
  {
    if w.st.Request().Valid() {
      var outcome := NegotiateFrom(w.st.candidates, 0, w.st.Request(), w.adapters, env.counters, w.st.history);
      if outcome.Deal? {
        DealIsWithACandidate(w.st.candidates, 0, w.st.Request(), w.adapters, env.counters, w.st.history);
      }
    }
  }

  lemma DiscoveryStaysPreferred(brief: State, w: World, env: Env)
    requires w.node == FindSupplierNode && SameBrief(brief, w.st)
    ensures TalksToPreferred(brief, AfterNode(w, env).st, AfterNode(w, env).node)
  {
  }

  lemma OtherNodesStayPreferred(brief: State, w: World, env: Env)
    requires w.node != NegotiateNode && w.node != FindSupplierNode && TalksToPreferred(brief, w.st, w.node)
    ensures TalksToPreferred(brief, AfterNode(w, env).st, AfterNode(w, env).node)
  {
  }

  lemma ResumeStaysPreferred(brief: State, w: World, call: ResumeCall)
    requires TalksToPreferred(brief, w.st, w.node)
    ensures TalksToPreferred(brief, AfterResume(w, call).st, AfterResume(w, call).node)
  {
  }

  lemma StepKeepsPreferred(brief: State, w: World, e: Event)
    requires Inv(w) && SameBrief(brief, w.st) && TalksToPreferred(brief, w.st, w.node)
    ensures TalksToPreferred(brief, Step(w, e).st, Step(w, e).node)
  {
    match e
    case Resume(call) => ResumeStaysPreferred(brief, w, call);
    case RunNode(env) =>
      match w.node
      case NegotiateNode => NegotiationStaysPreferred(brief, w, env);
      case FindSupplierNode => DiscoveryStaysPreferred(brief, w, env);
      case _ => OtherNodesStayPreferred(brief, w, env);
  }

  /** A step makes at most one call, out of execute_order, for the proposal of the selected offer. */
  lemma StepMakesOneCall(w: World, e: Event)
    requires Inv(w)
    ensures w.calls <= Step(w, e).calls
    ensures Step(w, e).calls != w.calls ==>
      && w.node == ExecuteOrderNode && GoodProposal(w.st, w.quoted)
      && |Step(w, e).calls| == |w.calls| + 1
      && var c := Step(w, e).calls[|w.calls|];
         c.st == w.st && c.proposal == w.st.ProposalFor(w.st.selected.value)
         && c.key == ExecutionKey(w.st.requestId, w.st.revision)
  {
  }

  lemma StepKeepsCalls(brief: State, w: World, e: Event)
    requires Inv(w) && BriefInv(brief, w)
    ensures forall c :: c in Step(w, e).calls ==>
      KeepsToBrief(brief, c) && FirstQuantity(brief, c.st) && c.st.revision <= Step(w, e).st.revision
  {
    StepMakesOneCall(w, e);
    StepKeepsFields(brief, w, e);
    var calls := Step(w, e).calls;
    assert calls == w.calls || calls == w.calls + [calls[|w.calls|]];
  }

  lemma {:induction false} RunKeepsBrief(w: World, events: seq<Event>)
    requires Started(w)
    ensures BriefInv(w.st, Run(w, events))
  {
    if events != [] {
      var before, e := Run(w, events[..|events| - 1]), events[|events| - 1];
      RunKeepsBrief(w, events[..|events| - 1]);
      RunKeepsInv(w, events[..|events| - 1]);
      StepKeepsFields(w.st, before, e);
      StepKeepsNeed(w.st, before, e);
      StepKeepsPreferred(w.st, before, e);
      StepKeepsCalls(w.st, before, e);
    }
  }

  /** Every order of every run is needed, goes to the preferred supplier if one was named, and is
      for the merchant, store, product, unit, deadline and spending limit the thread was started
      with; before any modification it is for no less than was asked for. */
  lemma {:induction false} OrdersKeepToTheBrief(w: World, events: seq<Event>)
    requires Started(w)
    ensures forall c :: c in Run(w, events).calls ==>
      && KeepsToBrief(w.st, c)
      && (c.key.revision == 1 ==> c.proposal.quantity >= w.st.requiredQuantity
                                  && (w.st.merchantOverride ==> c.proposal.quantity == w.st.requiredQuantity))
  {
    RunKeepsBrief(w, events);
  }

  // ----- what a modification means -----

  /** The revision is over, or still has the quantity and the price limit it began with. */
  ghost predicate KeepsLimits(revision: nat, quantity: int, maxPrice: int, st: State) {
    && st.revision >= revision
    && (st.revision == revision ==> st.requiredQuantity == quantity && st.maxPrice == maxPrice && st.merchantOverride)
  }

  lemma StepKeepsLimits(revision: nat, quantity: int, maxPrice: int, w: World, e: Event)
    requires KeepsLimits(revision, quantity, maxPrice, w.st)
    ensures KeepsLimits(revision, quantity, maxPrice, Step(w, e).st)
  {
    StepUpdates(w, e);
  }

  ghost predicate CallsKeepLimits(revision: nat, quantity: int, maxPrice: int, calls: seq<Call>) {
    forall c :: c in calls && c.key.revision == revision ==>
      c.proposal.quantity == quantity && c.proposal.unitPrice <= maxPrice
  }

  lemma StepKeepsCallLimits(revision: nat, quantity: int, maxPrice: int, w: World, e: Event)
    requires Inv(w) && KeepsLimits(revision, quantity, maxPrice, w.st)
             && CallsKeepLimits(revision, quantity, maxPrice, w.calls)
    ensures CallsKeepLimits(revision, quantity, maxPrice, Step(w, e).calls)
  {
    StepMakesOneCall(w, e);
    var calls := Step(w, e).calls;
    assert calls == w.calls || calls == w.calls + [calls[|w.calls|]];
  }

  lemma {:induction false} LimitsStick(revision: nat, quantity: int, maxPrice: int, w: World, events: seq<Event>)
    requires Inv(w) && KeepsLimits(revision, quantity, maxPrice, w.st)
             && CallsKeepLimits(revision, quantity, maxPrice, w.calls)
    ensures Inv(Run(w, events)) && KeepsLimits(revision, quantity, maxPrice, Run(w, events).st)
    ensures CallsKeepLimits(revision, quantity, maxPrice, Run(w, events).calls)
  {
    if events != [] {
      var before, e := Run(w, events[..|events| - 1]), events[|events| - 1];
      LimitsStick(revision, quantity, maxPrice, w, events[..|events| - 1]);
      StepKeepsInv(before, e);
      StepKeepsLimits(revision, quantity, maxPrice, before, e);
      StepKeepsCallLimits(revision, quantity, maxPrice, before, e);
    }
  }

  /** A modification means what it says: whatever the forecast and the suppliers do afterwards,
      every order placed in the revision it opens is for exactly its quantity and within its price,
      or for the quantity and price limit in force before where it gives none. */
  lemma {:induction false} ModificationsAreKept(w: World, prefix: seq<Event>, call: ResumeCall, events: seq<Event>)
    requires Started(w) && call.action == Modified && DecisionOf(call).Some?
    requires var gate := Run(w, prefix);
      !NotResumable(gate, call)
      && DecisionFailure(gate.authority, gate.st.approvalId, call.merchantId, call.token, call.now).None?
    ensures var gate := Run(w, prefix);
      var quantity := if call.quantity.Some? then call.quantity.value else gate.st.requiredQuantity;
      var maxPrice := if call.maxUnitPrice.Some? then call.maxUnitPrice.value else gate.st.maxPrice;
      forall c :: c in Run(AfterResume(gate, call), events).calls && c.key.revision == gate.st.revision + 1 ==>
        c.proposal.quantity == quantity && c.proposal.unitPrice <= maxPrice
  {
    var gate := Run(w, prefix);
    RunKeepsInv(w, prefix);
    RunKeepsBrief(w, prefix);
    ResumeKeepsInv(gate, call);
    var after := AfterResume(gate, call);
    assert after.calls == gate.calls;
    LimitsStick(gate.st.revision + 1, after.st.requiredQuantity, after.st.maxPrice, after, events);
  }
}
