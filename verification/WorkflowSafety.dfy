/** What holds in every run of a purchase thread, whatever suppliers, merchant and clock do. */
module WorkflowSafety {
  import opened Money
  import opened Entities
  import opened NegotiateNode
  import opened SupplierTools
  import opened Approvals
  import opened PurchaseWorkflow

  // ----- what the nodes hand on -----

  /** The offer is within every limit now in force and comes from a supplier not tried yet. */
  ghost predicate GoodOffer(st: State, quote: SupplierQuote, quoted: set<(nat, SupplierId)>) {
    && quote.unitPrice <= st.maxPrice
    && ONE_UNIT <= st.requiredQuantity <= quote.available
    && quote.deliveryAt <= st.deliveryRequirement
    && quote.supplierId !in st.attempted
    && (st.revision, quote.supplierId) in quoted
  }

  ghost predicate GoodProposal(st: State, quoted: set<(nat, SupplierId)>) {
    && st.selected.Some? && GoodOffer(st, st.selected.value, quoted)
    && st.ProposalFor(st.selected.value).TotalAmount() <= st.spendingLimit * ONE_UNIT
  }

  /** The proposal was built from the selected offer and its approval was asked for. */
  ghost predicate AwaitsRuling(st: State, quoted: set<(nat, SupplierId)>, records: map<ApprovalId, ApprovalRecord>) {
    && GoodProposal(st, quoted)
    && st.proposal == Some(st.ProposalFor(st.selected.value))
    && st.approvalId in records
    && records[st.approvalId].orderHash == CanonicalOrderHash(st.proposal.value)
  }

  // ----- approvals -----

  /** The ruling is a timely approval by someone holding the record's own token. */
  ghost predicate Grants(r: Ruling, record: ApprovalRecord) {
    && r.approvalId == record.approvalId && r.action == ApprovalStatus.Approved && r.applied
    && Matches(r.claims, record) && r.now < record.expiresAt
  }

  ghost predicate Granted(record: ApprovalRecord, rulings: seq<Ruling>) {
    exists r :: r in rulings && Grants(r, record)
  }

  /** Approvals other than the one being waited for are decided, and approved ones were granted. */
  ghost predicate ApprovalsInv(records: map<ApprovalId, ApprovalRecord>, rulings: seq<Ruling>,
                               awaited: Option<ApprovalId>) {
    forall id :: id in records ==>
      && records[id].approvalId == id
      && (records[id].status == Pending ==> awaited == Some(id))
      && (records[id].status == ApprovalStatus.Approved ==> Granted(records[id], rulings))
  }

  function Awaited(w: World): Option<ApprovalId> {
    if w.node == HumanApprovalNode then Some(w.st.approvalId) else None
  }

  function AppliedModifications(rulings: seq<Ruling>): nat {
    if rulings == [] then 0
    else
      var last := rulings[|rulings| - 1];
      AppliedModifications(rulings[..|rulings| - 1]) + (if last.action == Modified && last.applied then 1 else 0)
  }

  // ----- supplier calls -----

  /** A place_order call inside every limit in force when it was made, for a payload whose hash an
      approved and unexpired approval carries. */
  ghost predicate SafeCall(c: Call) {
    && c.st.selected.Some?
    && c.proposal.supplierId == c.st.selected.value.supplierId
    && c.proposal.unitPrice <= c.st.maxPrice
    && ONE_UNIT <= c.proposal.quantity <= c.st.selected.value.available
    && c.proposal.deliveryAt <= c.st.deliveryRequirement
    && c.proposal.TotalAmount() <= c.st.spendingLimit * ONE_UNIT
    && c.record.status == ApprovalStatus.Approved
    && c.now < c.record.expiresAt
    && c.record.orderHash == CanonicalOrderHash(c.proposal)
  }

  /** Every call is safe, its approval is still approved and unchanged, no approval is used twice,
      and within an execution key only the last call can have been answered. */
  ghost predicate CallsInv(calls: seq<Call>, records: map<ApprovalId, ApprovalRecord>,
                           results: map<ExecutionKey, OrderResult>) {
    && (forall c :: c in calls ==>
          && SafeCall(c)
          && c.record.approvalId in records && records[c.record.approvalId] == c.record
          && (c.reply.Placed? ==> c.key in results))
    && (forall i, j :: 0 <= i < j < |calls| ==>
          && calls[i].record.approvalId != calls[j].record.approvalId
          && (calls[i].key == calls[j].key ==> calls[i].reply.PlaceRaised?))
  }

  ghost predicate Unused(approvalId: ApprovalId, calls: seq<Call>) {
    forall c :: c in calls ==> c.record.approvalId != approvalId
  }

  // ----- executions -----

  ghost predicate ConfirmedWithoutReference(e: Execution) {
    e.answer.Returned? && e.answer.result.status == Confirmed && !e.answer.result.HasReference()
  }

  ghost predicate ConfirmedWithReference(e: Execution) {
    e.answer.Returned? && e.answer.result.ConfirmedWithReference()
  }

  ghost predicate Waits(e: Execution) {
    e.answer.Returned? && e.answer.result.status == ApprovalPending
  }

  /** The execution failed in the way that rules its supplier out for the rest of the revision. */
  ghost predicate RulesOut(e: Execution) {
    !ConfirmedWithReference(e) && !Waits(e) && !ConfirmedWithoutReference(e)
  }

  ghost predicate NoneSucceeds(executions: seq<Execution>) {
    forall e :: e in executions ==> !ConfirmedWithReference(e) && !Waits(e)
  }

  /** Executions of one revision are with different suppliers that quoted for it, counting all but
      the confirmations without a reference; failed suppliers are on the attempted list. */
  ghost predicate ExecutionsInv(executions: seq<Execution>, revision: nat, attempted: seq<SupplierId>,
                                quoted: set<(nat, SupplierId)>) {
    && (forall e :: e in executions ==>
          && e.revision <= revision
          && (e.revision, e.supplierId) in quoted
          && (e.revision == revision && RulesOut(e) ==> e.supplierId in attempted))
    && (forall i, j :: 0 <= i < j < |executions| && executions[i].revision == executions[j].revision
          && !ConfirmedWithoutReference(executions[i]) && !ConfirmedWithoutReference(executions[j])
          ==> executions[i].supplierId != executions[j].supplierId)
  }

  ghost predicate AwaitsVerification(st: State, executions: seq<Execution>) {
    && executions != []
    && NoneSucceeds(executions[..|executions| - 1])
    && var e := executions[|executions| - 1];
      && (RulesOut(e) <==> st.executionStatus == ExecutionStatus.Failed)
      && (Waits(e) <==> st.executionStatus == WaitingSupplierApproval)
      && (ConfirmedWithReference(e) || ConfirmedWithoutReference(e) <==> st.executionStatus == Succeeded)
      && (e.answer.Returned? ==> st.executionResult == Some(e.answer.result))
      && (st.failure == NoFailure <==> st.executionStatus != ExecutionStatus.Failed)
  }

  // ----- the three ways a run ends -----

  /** The last execution brought a confirmed order with a reference, and no earlier one did. */
  ghost predicate EndsVerified(st: State, executions: seq<Execution>) {
    && st.executionStatus == Verified && st.failure == NoFailure
    && executions != [] && NoneSucceeds(executions[..|executions| - 1])
    && ConfirmedWithReference(executions[|executions| - 1])
    && st.executionResult == Some(executions[|executions| - 1].answer.result)
  }

  ghost predicate EndsWaiting(st: State, executions: seq<Execution>) {
    && st.executionStatus == WaitingSupplierApproval && st.failure == NoFailure
    && executions != [] && NoneSucceeds(executions[..|executions| - 1])
    && Waits(executions[|executions| - 1])
  }

  ghost predicate EndsFailed(st: State, executions: seq<Execution>) {
    st.failure != NoFailure && NoneSucceeds(executions)
  }

  // ----- the invariant -----

  ghost predicate NodeInv(w: World) {
    match w.node
    case NegotiateNode =>
      && NoneSucceeds(w.executions)
      && forall q :: q in w.st.candidates ==>
           q.supplierId !in w.st.attempted && (w.st.revision, q.supplierId) in w.quoted
    case RiskCheckNode =>
      NoneSucceeds(w.executions) && w.st.selected.Some? && GoodOffer(w.st, w.st.selected.value, w.quoted)
    case CreateProposalNode => NoneSucceeds(w.executions) && GoodProposal(w.st, w.quoted)
    case HumanApprovalNode =>
      && NoneSucceeds(w.executions) && AwaitsRuling(w.st, w.quoted, w.authority.records)
      && Unused(w.st.approvalId, w.calls)
    case ExecuteOrderNode =>
      && NoneSucceeds(w.executions) && AwaitsRuling(w.st, w.quoted, w.authority.records)
      && Unused(w.st.approvalId, w.calls)
      && w.authority.records[w.st.approvalId].status == ApprovalStatus.Approved
    case VerifyResultNode => AwaitsVerification(w.st, w.executions)
    case End => EndsVerified(w.st, w.executions) || EndsWaiting(w.st, w.executions) || EndsFailed(w.st, w.executions)
    case _ => NoneSucceeds(w.executions)
  }

  ghost predicate Inv(w: World) {
    && NodeInv(w)
    && ApprovalsInv(w.authority.records, w.rulings, Awaited(w))
    && w.st.revision == 1 + AppliedModifications(w.rulings)
    && CallsInv(w.calls, w.authority.records, w.results)
    && ExecutionsInv(w.executions, w.st.revision, w.st.attempted, w.quoted)
  }

  // ----- each node keeps the invariant -----

  lemma StartedInv(w: World)
    requires Started(w)
    ensures Inv(w)
  {
  }

  lemma FindSupplierKeepsInv(w: World, env: Env)
    requires Inv(w) && w.node == FindSupplierNode
    ensures Inv(AfterFindSupplier(w, env))
  {
    var found := FindSupplier(w.st, env.discovered);
    if found.Some? {
      var collected := Collected(env.discovered).value;
      SortIsAnOrderedPermutation(Answered(env.discovered));
      forall q | q in found.value.candidates
        ensures (w.st.revision, q.supplierId) in AfterFindSupplier(w, env).quoted
      {
        assert q in multiset(collected) && q in multiset(Answered(env.discovered));
      }
    }
  }

  lemma NegotiateKeepsInv(w: World, env: Env)
    requires Inv(w) && w.node == NegotiateNode
    ensures Inv(AfterNode(w, env))
  {
    if w.st.Request().Valid() {
      var outcome := NegotiateFrom(w.st.candidates, 0, w.st.Request(), w.adapters, env.counters, w.st.history);
      if outcome.Deal? {
        DealIsWithACandidate(w.st.candidates, 0, w.st.Request(), w.adapters, env.counters, w.st.history);
      }
    }
  }

  lemma RiskCheckKeepsInv(w: World, env: Env)
    requires Inv(w) && w.node == RiskCheckNode
    ensures Inv(AfterNode(w, env))
  {
    var quote := w.st.selected.value;
    var reasons := RiskReasons(w.st, w.st.ProposalFor(quote), quote);
    assert reasons == [] ==> Passes(WithinSpendingLimit, w.st, w.st.ProposalFor(quote), quote);
  }

  /** A new pending approval, asked for under an id that no record has. */
  lemma RequestKeepsApprovals(w: World, env: Env)
    requires Inv(w) && w.node == CreateProposalNode
    ensures var after := AfterCreateProposal(w, env);
      && ApprovalsInv(after.authority.records, after.rulings, Awaited(after))
      && CallsInv(after.calls, after.authority.records, after.results)
  {
  }

  lemma RequestIsAwaited(w: World, env: Env)
    requires Inv(w) && w.node == CreateProposalNode
    ensures NodeInv(AfterCreateProposal(w, env))
  {
  }

  lemma CreateProposalKeepsInv(w: World, env: Env)
    requires Inv(w) && w.node == CreateProposalNode
    ensures Inv(AfterNode(w, env))
  {
    RequestKeepsApprovals(w, env);
    RequestIsAwaited(w, env);
  }

  /** A call made under an unused approval and an unanswered key. */
  lemma AddingKeepsCalls(calls: seq<Call>, c: Call, records: map<ApprovalId, ApprovalRecord>,
                         results: map<ExecutionKey, OrderResult>, after: map<ExecutionKey, OrderResult>)
    requires CallsInv(calls, records, results) && SafeCall(c) && Unused(c.record.approvalId, calls)
    requires c.record.approvalId in records && records[c.record.approvalId] == c.record
    requires c.key !in results && results.Keys <= after.Keys && (c.reply.Placed? ==> c.key in after)
    ensures CallsInv(calls + [c], records, after)
  {
    assert forall i :: 0 <= i < |calls| ==> calls[i] in calls;
  }

  /** The call that is made is safe, is the first under its approval and, because an answered key
      is never called again, the first to be possibly answered under its key. */
  lemma ExecuteOrderKeepsCalls(w: World, env: Env)
    requires Inv(w) && w.node == ExecuteOrderNode
    ensures var after := AfterExecuteOrder(w, env); CallsInv(after.calls, after.authority.records, after.results)
  {
    var after := AfterExecuteOrder(w, env);
    if after.calls != w.calls {
      AddingKeepsCalls(w.calls, after.calls[|w.calls|], w.authority.records, w.results, after.results);
    }
  }

  /** Adding an execution with a supplier that quoted and is not ruled out yet. */
  lemma AddingKeepsExecutions(executions: seq<Execution>, e: Execution, attempted: seq<SupplierId>,
                              quoted: set<(nat, SupplierId)>)
    requires NoneSucceeds(executions) && ExecutionsInv(executions, e.revision, attempted, quoted)
    requires (e.revision, e.supplierId) in quoted && e.supplierId !in attempted
    ensures ExecutionsInv(executions + [e], e.revision,
                          if RulesOut(e) then attempted + [e.supplierId] else attempted, quoted)
  {
    forall earlier | earlier in executions && earlier.revision == e.revision && !ConfirmedWithoutReference(earlier)
      ensures earlier.supplierId != e.supplierId
    {
      assert RulesOut(earlier);
    }
  }

  /** The execution that is added, and the attempted list after it. */
  lemma ExecutionIsRecorded(w: World, env: Env) returns (e: Execution)
    requires Inv(w) && w.node == ExecuteOrderNode
    ensures var after := AfterExecuteOrder(w, env);
      && after.executions == w.executions + [e]
      && e.revision == w.st.revision == after.st.revision && e.supplierId == w.st.selected.value.supplierId
      && after.st.attempted == (if RulesOut(e) then w.st.attempted + [e.supplierId] else w.st.attempted)
      && after.quoted == w.quoted
  {
    e := AfterExecuteOrder(w, env).executions[|w.executions|];
  }

  lemma ExecutionAwaitsVerification(w: World, env: Env)
    requires Inv(w) && w.node == ExecuteOrderNode
    ensures AwaitsVerification(AfterExecuteOrder(w, env).st, AfterExecuteOrder(w, env).executions)
  {
    assert AfterExecuteOrder(w, env).executions[..|w.executions|] == w.executions;
  }

  lemma ExecuteOrderKeepsExecutions(w: World, env: Env)
    requires Inv(w) && w.node == ExecuteOrderNode
    ensures var after := AfterExecuteOrder(w, env);
      && ExecutionsInv(after.executions, after.st.revision, after.st.attempted, after.quoted)
      && AwaitsVerification(after.st, after.executions)
  {
    var e := ExecutionIsRecorded(w, env);
    AddingKeepsExecutions(w.executions, e, w.st.attempted, w.quoted);
    ExecutionAwaitsVerification(w, env);
  }

  lemma ExecuteOrderKeepsInv(w: World, env: Env)
    requires Inv(w) && w.node == ExecuteOrderNode
    ensures Inv(AfterExecuteOrder(w, env))
  {
    ExecuteOrderKeepsCalls(w, env);
    ExecuteOrderKeepsExecutions(w, env);
  }

  lemma VerifyResultKeepsInv(w: World, env: Env)
    requires Inv(w) && w.node == VerifyResultNode
    ensures Inv(AfterNode(w, env))
  {
    assert w.executions == w.executions[..|w.executions| - 1] + [w.executions[|w.executions| - 1]];
  }

  /** A ruling settles at most the approval waited for, and grants only on its own token. */
  lemma RulingKeepsApprovals(w: World, call: ResumeCall)
    requires Inv(w) && w.node == HumanApprovalNode
    requires DecisionFailure(w.authority, w.st.approvalId, call.merchantId, call.token, call.now).None?
    requires call.action == ApprovalStatus.Approved ==> DecisionOf(call).Some?
    ensures var ruling := Ruling(w.st.approvalId, call.action, call.token.claims, call.now, DecisionOf(call).Some?);
      var records := SetStatus(w.authority, w.st.approvalId, call.action).records;
      && ApprovalsInv(records, w.rulings + [ruling], if call.action == Pending then Some(w.st.approvalId) else None)
      && CallsInv(w.calls, records, w.results)
  {
    var id := w.st.approvalId;
    var ruling := Ruling(id, call.action, call.token.claims, call.now, DecisionOf(call).Some?);
    var records := SetStatus(w.authority, id, call.action).records;
    var rulings := w.rulings + [ruling];
    assert ruling in rulings;
    forall other | other in records && records[other].status == ApprovalStatus.Approved
      ensures Granted(records[other], rulings)
    {
      if other == id {
        assert Grants(ruling, records[id]);
      } else {
        var r :| r in w.rulings && Grants(r, records[other]);
        assert r in rulings;
      }
    }
  }

  /** A refused decision leaves the calls' approvals alone: none of them is pending. */
  lemma RefusalKeepsApprovals(w: World, call: ResumeCall)
    requires Inv(w) && w.node == HumanApprovalNode
    requires DecisionFailure(w.authority, w.st.approvalId, call.merchantId, call.token, call.now).Some?
    ensures var records := DecideIn(w.authority, w.st.approvalId, call.merchantId, call.action, call.token,
                                    call.now).records;
      ApprovalsInv(records, w.rulings, Awaited(w)) && CallsInv(w.calls, records, w.results)
  {
  }

  /** A new revision starts with a clean attempted list and no executions of its own. */
  lemma NewRevisionKeepsExecutions(executions: seq<Execution>, revision: nat, attempted: seq<SupplierId>,
                                   quoted: set<(nat, SupplierId)>)
    requires ExecutionsInv(executions, revision, attempted, quoted)
    ensures ExecutionsInv(executions, revision + 1, [], quoted)
  {
  }

  /** The gate's update after a ruling that the graph acts on. */
  lemma GateKeepsNode(w: World, call: ResumeCall)
    requires Inv(w) && !NotResumable(w, call) && DecisionOf(call).Some?
    requires DecisionFailure(w.authority, w.st.approvalId, call.merchantId, call.token, call.now).None?
    ensures NodeInv(AfterResume(w, call))
  {
    if call.action == ApprovalStatus.Approved {
      var after := AfterResume(w, call);
      assert after.st.ProposalFor(after.st.selected.value) == w.st.ProposalFor(w.st.selected.value);
    }
  }

  lemma GateKeepsApprovals(w: World, call: ResumeCall)
    requires Inv(w) && !NotResumable(w, call) && DecisionOf(call).Some?
    requires DecisionFailure(w.authority, w.st.approvalId, call.merchantId, call.token, call.now).None?
    ensures var after := AfterResume(w, call);
      && ApprovalsInv(after.authority.records, after.rulings, Awaited(after))
      && CallsInv(after.calls, after.authority.records, after.results)
  {
    RulingKeepsApprovals(w, call);
  }

  lemma GateCountsModifications(w: World, call: ResumeCall)
    requires Inv(w) && !NotResumable(w, call) && DecisionOf(call).Some?
    requires DecisionFailure(w.authority, w.st.approvalId, call.merchantId, call.token, call.now).None?
    ensures AfterResume(w, call).st.revision == 1 + AppliedModifications(AfterResume(w, call).rulings)
  {
    assert AfterResume(w, call).rulings[..|w.rulings|] == w.rulings;
  }

  lemma GateKeepsExecutions(w: World, call: ResumeCall)
    requires Inv(w) && !NotResumable(w, call) && DecisionOf(call).Some?
    requires DecisionFailure(w.authority, w.st.approvalId, call.merchantId, call.token, call.now).None?
    ensures var after := AfterResume(w, call);
      ExecutionsInv(after.executions, after.st.revision, after.st.attempted, after.quoted)
  {
    NewRevisionKeepsExecutions(w.executions, w.st.revision, w.st.attempted, w.quoted);
  }

  lemma GateKeepsInv(w: World, call: ResumeCall)
    requires Inv(w) && !NotResumable(w, call) && DecisionOf(call).Some?
    requires DecisionFailure(w.authority, w.st.approvalId, call.merchantId, call.token, call.now).None?
    ensures Inv(AfterResume(w, call))
  {
    GateKeepsNode(w, call);
    GateKeepsApprovals(w, call);
    GateCountsModifications(w, call);
    GateKeepsExecutions(w, call);
  }

  /** The authority ruled, but resume raised on an unusable decision. */
  lemma StrandingKeepsInv(w: World, call: ResumeCall)
    requires Inv(w) && !NotResumable(w, call) && DecisionOf(call).None?
    requires DecisionFailure(w.authority, w.st.approvalId, call.merchantId, call.token, call.now).None?
    ensures Inv(AfterResume(w, call))
  {
    RulingKeepsApprovals(w, call);
    var after := AfterResume(w, call);
    assert after.rulings[..|after.rulings| - 1] == w.rulings;
  }

  lemma ResumeKeepsInv(w: World, call: ResumeCall)
    requires Inv(w)
    ensures Inv(AfterResume(w, call))
  {
    if NotResumable(w, call) {
    } else if DecisionFailure(w.authority, w.st.approvalId, call.merchantId, call.token, call.now).Some? {
      RefusalKeepsApprovals(w, call);
    } else if DecisionOf(call).Some? {
      GateKeepsInv(w, call);
    } else {
      StrandingKeepsInv(w, call);
    }
  }

  lemma StepKeepsInv(w: World, e: Event)
    requires Inv(w)
    ensures Inv(Step(w, e))
  {
    match e
    case Resume(call) => ResumeKeepsInv(w, call);
    case RunNode(env) =>
      match w.node
      case FindSupplierNode => FindSupplierKeepsInv(w, env);
      case NegotiateNode => NegotiateKeepsInv(w, env);
      case RiskCheckNode => RiskCheckKeepsInv(w, env);
      case CreateProposalNode => CreateProposalKeepsInv(w, env);
      case ExecuteOrderNode => ExecuteOrderKeepsInv(w, env);
      case VerifyResultNode => VerifyResultKeepsInv(w, env);
      case _ =>
  }

  lemma {:induction false} RunKeepsInv(w: World, events: seq<Event>)
    requires Started(w)
    ensures Inv(Run(w, events))
  {
    if events == [] {
      StartedInv(w);
    } else {
      RunKeepsInv(w, events[..|events| - 1]);
      StepKeepsInv(Run(w, events[..|events| - 1]), events[|events| - 1]);
    }
  }
}
