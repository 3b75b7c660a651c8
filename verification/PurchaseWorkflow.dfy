/** One purchase thread: the graph's nodes, its routing with both cycles, the approval interrupt
    and the resume call, over the state that is carried from node to node. */
module PurchaseWorkflow {
  import opened Money
  import opened Entities
  import opened NegotiateNode
  import opened SupplierTools
  import opened Approvals

  datatype FailureReason =
    | NoFailure
    | InventoryAboveReorderPoint
    | SupplierUnavailable
    | NegotiationFailed
    | RiskFailed(reasons: seq<RiskCheck>)
    | MerchantRejected
    | ExecutionRaised
    | SupplierRejected
    | SupplierConfirmationMissing

  datatype ExecutionStatus = NotStarted | Failed | WaitingSupplierApproval | Succeeded | Verified

  datatype State = State(
    merchantId: MerchantId,
    storeId: StoreId,
    requestId: string,
    sku: string,
    unit: string,
    requiredQuantity: int,
    targetPrice: int,
    maxPrice: int,
    spendingLimit: nat,
    deliveryRequirement: Instant,
    quantityOnHand: int,
    reorderPoint: int,
    preferredSupplier: Option<SupplierId>,
    merchantOverride: bool,
    candidates: seq<SupplierQuote>,
    selected: Option<SupplierQuote>,
    history: seq<HistoryEntry>,
    attempted: seq<SupplierId>,
    proposal: Option<PurchaseProposal>,
    revision: nat,
    approvalStatus: ApprovalStatus,
    approvalId: ApprovalId,
    approvalToken: Token,
    executionStatus: ExecutionStatus,
    executionResult: Option<OrderResult>,
    failure: FailureReason)
  {
    function Request(): PurchaseRequest {
      PurchaseRequest(sku, requiredQuantity, targetPrice, maxPrice, deliveryRequirement)
    }

    function ProposalFor(quote: SupplierQuote): PurchaseProposal
      requires requiredQuantity > 0
    {
      PurchaseProposal(ProposalId(requestId, revision), merchantId, storeId, quote.supplierId, sku,
                       requiredQuantity, unit, quote.unitPrice, quote.deliveryAt, quote.quoteId)
    }
  }

  // ----- nodes: a state update, or None for an exception -----

  function DetectNeed(st: State): State {
    st.(failure := if st.quantityOnHand > st.reorderPoint then InventoryAboveReorderPoint else NoFailure)
  }

  function ForecastDemand(st: State, shortage: nat): State {
    st.(requiredQuantity := if st.merchantOverride || shortage < st.requiredQuantity then st.requiredQuantity
                            else shortage)
  }

  predicate Eligible(st: State, quote: SupplierQuote) {
    quote.supplierId !in st.attempted && (st.preferredSupplier.None? || quote.supplierId == st.preferredSupplier.value)
  }

  function Filtered(st: State, quotes: seq<SupplierQuote>): (kept: seq<SupplierQuote>)
    ensures forall q :: q in kept <==> q in quotes && Eligible(st, q)
  {
    if quotes == [] then []
    else (if Eligible(st, quotes[0]) then [quotes[0]] else []) + Filtered(st, quotes[1..])
  }

  function FindSupplier(st: State, replies: seq<DiscoverReply>): Option<State> {
    if !st.Request().Valid() || Collected(replies).None? then None
    else
      var quotes := Filtered(st, Collected(replies).value);
      Some(st.(candidates := quotes, failure := if quotes == [] then SupplierUnavailable else NoFailure))
  }

  function NegotiateStep(st: State, adapters: seq<Adapter>, replies: seq<CounterReply>): Option<State> {
    if !st.Request().Valid() then None
    else
      match NegotiateFrom(st.candidates, 0, st.Request(), adapters, replies, st.history)
      case Raised => None
      case Deal(quote, history) => Some(st.(selected := Some(quote), history := history, failure := NoFailure))
      case NoDeal(history) => Some(st.(history := history, failure := NegotiationFailed))
  }

  datatype RiskCheck =
    | PositiveQuantity | InventoryConsistent | SupplierInventory | SupplierTrusted | WithinSpendingLimit
    | NotDuplicate | PriceConsistent

  /** The checks with the trust score and the duplicate flag at the defaults every call uses. */
  predicate Passes(check: RiskCheck, st: State, proposal: PurchaseProposal, quote: SupplierQuote) {
    match check
    case PositiveQuantity => proposal.quantity > 0
    case InventoryConsistent => st.quantityOnHand >= 0
    case SupplierInventory => quote.available >= proposal.quantity
    case SupplierTrusted => true
    case WithinSpendingLimit => proposal.TotalAmount() <= st.spendingLimit * ONE_UNIT
    case NotDuplicate => true
    case PriceConsistent => proposal.unitPrice == quote.unitPrice
  }

  function FailedCheck(check: RiskCheck, st: State, proposal: PurchaseProposal, quote: SupplierQuote): seq<RiskCheck> {
    if Passes(check, st, proposal, quote) then [] else [check]
  }

  function RiskReasons(st: State, proposal: PurchaseProposal, quote: SupplierQuote): (reasons: seq<RiskCheck>)
    ensures forall check :: check in reasons <==> !Passes(check, st, proposal, quote)
  {
    FailedCheck(PositiveQuantity, st, proposal, quote) + FailedCheck(InventoryConsistent, st, proposal, quote)
    + FailedCheck(SupplierInventory, st, proposal, quote) + FailedCheck(SupplierTrusted, st, proposal, quote)
    + FailedCheck(WithinSpendingLimit, st, proposal, quote) + FailedCheck(NotDuplicate, st, proposal, quote)
    + FailedCheck(PriceConsistent, st, proposal, quote)
  }

  function RiskStep(st: State): Option<State> {
    if st.selected.None? || st.requiredQuantity <= 0 || st.quantityOnHand < 0 || st.reorderPoint < 0 then None
    else
      var quote := st.selected.value;
      var reasons := RiskReasons(st, st.ProposalFor(quote), quote);
      Some(st.(failure := if reasons == [] then NoFailure else RiskFailed(reasons)))
  }

  function CreateProposal(st: State, approvalId: ApprovalId, nonce: nat, expiresAt: Instant): Option<State> {
    if st.selected.None? || st.requiredQuantity <= 0 then None
    else
      var proposal := st.ProposalFor(st.selected.value);
      Some(st.(proposal := Some(proposal), approvalStatus := Pending, approvalId := approvalId,
               approvalToken := Signed(ClaimsOf(NewRecord(proposal, approvalId, nonce, expiresAt)))))
  }

  /** What the merchant asks the gate for. */
  datatype Decision = Approve | Modify(quantity: Option<int>, maxUnitPrice: Option<int>) | Reject

  function ApprovalGateUpdate(st: State, decision: Decision): State {
    match decision
    case Approve => st.(approvalStatus := ApprovalStatus.Approved)
    case Reject => st.(approvalStatus := Rejected, failure := MerchantRejected)
    case Modify(quantity, maxUnitPrice) =>
      st.(approvalStatus := Modified,
          revision := st.revision + 1,
          attempted := [],
          merchantOverride := true,
          failure := NoFailure,
          requiredQuantity := if quantity.Some? then quantity.value else st.requiredQuantity,
          maxPrice := if maxUnitPrice.Some? then maxUnitPrice.value else st.maxPrice)
  }

  method ApprovalGate(st: State, decision: Decision) returns (updated: State)
    ensures updated == ApprovalGateUpdate(st, decision)
  {
    if decision.Modify? {
      updated := st.(approvalStatus := Modified, revision := st.revision + 1, attempted := [],
                     merchantOverride := true, failure := NoFailure);
      if decision.quantity.Some? {
        updated := updated.(requiredQuantity := decision.quantity.value);
      }
      if decision.maxUnitPrice.Some? {
        updated := updated.(maxPrice := decision.maxUnitPrice.value);
      }
      return;
    }
    if decision.Reject? {
      return st.(approvalStatus := Rejected, failure := MerchantRejected);
    }
    updated := st.(approvalStatus := ApprovalStatus.Approved);
  }

  function ExecuteOrder(st: State, supplierId: SupplierId, answer: Answer): State {
    match answer
    case Threw(_) =>
      st.(executionStatus := Failed, failure := ExecutionRaised, attempted := st.attempted + [supplierId])
    case Returned(result) =>
      if result.status == ApprovalPending then
        st.(executionStatus := WaitingSupplierApproval, executionResult := Some(result), failure := NoFailure)
      else if result.status != Confirmed then
        st.(executionStatus := Failed, executionResult := Some(result), failure := SupplierRejected,
            attempted := st.attempted + [supplierId])
      else
        st.(executionStatus := Succeeded, executionResult := Some(result), failure := NoFailure)
  }

  function VerifyResult(st: State): State {
    if st.executionStatus == WaitingSupplierApproval then st.(failure := NoFailure)
    else if st.executionStatus != Succeeded || st.executionResult.None? then st
    else if !st.executionResult.value.ConfirmedWithReference() then
      st.(executionStatus := Failed, failure := SupplierConfirmationMissing)
    else st.(executionStatus := Verified, failure := NoFailure)
  }

  // ----- the graph -----

  datatype Node =
    | DetectNeedNode | ForecastNode | FindSupplierNode | NegotiateNode | RiskCheckNode | CreateProposalNode
    | HumanApprovalNode | ExecuteOrderNode | VerifyResultNode
    | End
    | Aborted  // a node raised; the thread never waits for approval again

  /** The outgoing edge taken after a node has updated the state. */
  function Route(node: Node, st: State): Node {
    match node
    case DetectNeedNode => if st.failure != NoFailure then End else ForecastNode
    case ForecastNode => FindSupplierNode
    case FindSupplierNode => if st.failure != NoFailure then End else NegotiateNode
    case NegotiateNode => if st.failure != NoFailure then End else RiskCheckNode
    case RiskCheckNode => if st.failure != NoFailure then End else CreateProposalNode
    case CreateProposalNode => HumanApprovalNode
    case HumanApprovalNode =>
      if st.approvalStatus == ApprovalStatus.Approved then ExecuteOrderNode
      else if st.approvalStatus == Modified then ForecastNode
      else End
    case ExecuteOrderNode => VerifyResultNode
    case VerifyResultNode => if st.executionStatus == Failed then FindSupplierNode else End
    case End => End
    case Aborted => Aborted
  }

  // ----- a thread and its surroundings -----

  /** One place_order call, with everything it was made from. */
  datatype Call = Call(st: State, proposal: PurchaseProposal, record: ApprovalRecord, key: ExecutionKey, now: Instant,
                       reply: PlaceReply)

  /** One pass through execute_order. */
  datatype Execution = Execution(revision: nat, supplierId: SupplierId, answer: Answer)

  /** One decision the authority accepted; applied says whether the graph then moved on. */
  datatype Ruling = Ruling(approvalId: ApprovalId, action: ApprovalStatus, claims: Claims, now: Instant, applied: bool)

  datatype World = World(
    adapters: seq<Adapter>,
    ttl: nat,
    st: State,
    node: Node,
    authority: Authority,
    results: map<ExecutionKey, OrderResult>,
    calls: seq<Call>,
    executions: seq<Execution>,
    rulings: seq<Ruling>,
    quoted: set<(nat, SupplierId)>)  // who answered discovery, by revision

  /** What the surroundings contribute to one node: the clock, the forecast, random values and
      the suppliers' answers. */
  datatype Env = Env(
    now: Instant,
    shortage: nat,
    discovered: seq<DiscoverReply>,
    counters: seq<CounterReply>,
    approvalId: ApprovalId,
    nonce: nat,
    reply: PlaceReply)

  datatype ResumeCall = ResumeCall(
    merchantId: MerchantId,
    action: ApprovalStatus,
    token: Token,
    quantity: Option<int>,
    maxUnitPrice: Option<int>,
    expectedApproval: Option<ApprovalId>,
    expectedProposal: Option<ProposalId>,
    now: Instant)

  datatype Event = RunNode(env: Env) | Resume(call: ResumeCall)

  function Moved(w: World, updated: Option<State>): World {
    if updated.None? then w.(node := Aborted)
    else w.(st := updated.value, node := Route(w.node, updated.value))
  }

  function AfterFindSupplier(w: World, env: Env): World {
    Moved(w, FindSupplier(w.st, env.discovered))
      .(quoted := w.quoted + set q | q in Answered(env.discovered) :: (w.st.revision, q.supplierId))
  }

  /** The approval id is drawn by uuid4 and so is fresh; a draw that is taken is no event. */
  function AfterCreateProposal(w: World, env: Env): World {
    var updated := CreateProposal(w.st, env.approvalId, env.nonce, env.now + w.ttl);
    if env.approvalId in w.authority.records then w
    else if updated.None? then Moved(w, None)
    else Moved(w, updated).(
      authority := RequestIn(w.authority, updated.value.proposal.value, env.approvalId, env.nonce, env.now + w.ttl))
  }

  function AfterExecuteOrder(w: World, env: Env): World {
    if w.st.proposal.None? then Moved(w, None)
    else
      var proposal := w.st.proposal.value;
      var key := ExecutionKey(w.st.requestId, w.st.revision);
      var answer := ExecuteAnswer(w.results, w.authority, w.adapters, proposal, w.st.approvalId, w.st.approvalToken,
                                  key, env.now, env.reply);
      var called := CallsSupplier(w.results, w.authority, w.adapters, proposal, w.st.approvalId, w.st.approvalToken,
                                  key, env.now);
      Moved(w, Some(ExecuteOrder(w.st, proposal.supplierId, answer))).(
        results := ExecuteResults(w.results, w.authority, w.adapters, proposal, w.st.approvalId, w.st.approvalToken,
                                  key, env.now, env.reply),
        calls := if !called then w.calls
                 else w.calls + [Call(w.st, proposal, w.authority.records[w.st.approvalId], key, env.now, env.reply)],
        executions := w.executions + [Execution(w.st.revision, proposal.supplierId, answer)])
  }

  function AfterNode(w: World, env: Env): World {
    match w.node
    case DetectNeedNode => Moved(w, Some(DetectNeed(w.st)))
    case ForecastNode => Moved(w, Some(ForecastDemand(w.st, env.shortage)))
    case FindSupplierNode => AfterFindSupplier(w, env)
    case NegotiateNode => Moved(w, NegotiateStep(w.st, w.adapters, env.counters))
    case RiskCheckNode => Moved(w, RiskStep(w.st))
    case CreateProposalNode => AfterCreateProposal(w, env)
    case HumanApprovalNode => w
    case ExecuteOrderNode => AfterExecuteOrder(w, env)
    case VerifyResultNode => Moved(w, Some(VerifyResult(w.st)))
    case End => w
    case Aborted => w
  }

  /** Why a resume stops before the authority is asked. */
  predicate NotResumable(w: World, call: ResumeCall) {
    || w.node != HumanApprovalNode
    || w.st.proposal.None?
    || (call.expectedApproval.Some? && call.expectedApproval.value != w.st.approvalId)
    || (call.expectedProposal.Some? && call.expectedProposal.value != w.st.proposal.value.proposalId)
  }

  /** The gate's decision, or None where resume raises after the authority has ruled. */
  function DecisionOf(call: ResumeCall): Option<Decision> {
    match call.action
    case Approved => Some(Approve)
    case Rejected => Some(Reject)
    case Modified =>
      if call.quantity.None? && call.maxUnitPrice.None? then None
      else if call.quantity.Some? && call.quantity.value <= 0 then None
      else if call.maxUnitPrice.Some? && call.maxUnitPrice.value <= 0 then None
      else Some(Modify(call.quantity, call.maxUnitPrice))
    case _ => None
  }

  function AfterResume(w: World, call: ResumeCall): World {
    if NotResumable(w, call) then w
    else
      var authority := DecideIn(w.authority, w.st.approvalId, call.merchantId, call.action, call.token, call.now);
      if DecisionFailure(w.authority, w.st.approvalId, call.merchantId, call.token, call.now).Some? then
        w.(authority := authority)
      else
        var ruling := Ruling(w.st.approvalId, call.action, call.token.claims, call.now, DecisionOf(call).Some?);
        var ruled := w.(authority := authority, rulings := w.rulings + [ruling]);
        if DecisionOf(call).None? then ruled
        else Moved(ruled, Some(ApprovalGateUpdate(w.st, DecisionOf(call).value)))
  }

  function Step(w: World, e: Event): World {
    match e
    case RunNode(env) => AfterNode(w, env)
    case Resume(call) => AfterResume(w, call)
  }

  function Run(w: World, events: seq<Event>): World {
    if events == [] then w else Step(Run(w, events[..|events| - 1]), events[|events| - 1])
  }

  /** A thread just started, for any request, adapters and lifetime of approvals. */
  ghost predicate Started(w: World) {
    && w.node == DetectNeedNode
    && w.st.revision == 1 && w.st.attempted == []
    && w.st.executionStatus == NotStarted
    && w.authority == Authority(map[], map[])
    && w.results == map[] && w.calls == [] && w.executions == [] && w.rulings == [] && w.quoted == {}
  }
}
