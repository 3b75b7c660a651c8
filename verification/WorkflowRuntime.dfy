/** The running thread: checkpointed graph state, advanced node by node and resumed by the
    merchant, over the authority and executor objects. */
module WorkflowRuntime {
  import opened Entities
  import opened NegotiateNode
  import opened SupplierTools
  import opened Approvals
  import opened PurchaseWorkflow

  datatype ResumeError = NotWaiting | OtherApproval | OtherProposal | Refused(failure: Failure) | BadModification

  class Runtime {
    const approvals: InMemoryApprovalAuthority
    const executor: SecureMemoryTransactionExecutor
    const suppliers: seq<Adapter>
    var st: State
    var node: Node
    // observations of the run
    ghost var calls: seq<Call>
    ghost var executions: seq<Execution>
    ghost var rulings: seq<Ruling>
    ghost var quoted: set<(nat, SupplierId)>

    ghost predicate Wired()
      reads this
    {
      executor.approvals == approvals && executor.suppliers == suppliers
    }

    ghost function View(): World
      reads this, approvals, executor
    {
      World(suppliers, approvals.ttl, st, node, approvals.State(), executor.results, calls, executions, rulings, quoted)
    }

    constructor (approvals: InMemoryApprovalAuthority, executor: SecureMemoryTransactionExecutor, initial: State)
      requires executor.approvals == approvals
      requires approvals.State() == Authority(map[], map[]) && executor.results == map[]
      requires initial.revision == 1 && initial.attempted == [] && initial.executionStatus == NotStarted
      ensures Wired() && Started(View())
      ensures this.approvals == approvals && this.executor == executor && st == initial
    {
      this.approvals := approvals;
      this.executor := executor;
      this.suppliers := executor.suppliers;
      st := initial;
      node := DetectNeedNode;
      calls, executions, rulings, quoted := [], [], [], {};
    }

    /** Runs the node the thread stands at. */
    method Advance(env: Env)
      requires Wired()
      requires node == CreateProposalNode ==> env.approvalId !in approvals.records
      modifies this, approvals, executor
      ensures Wired() && View() == AfterNode(old(View()), env)
    {
      var updated: Option<State> := Some(st);
      match node {
        case DetectNeedNode => updated := Some(DetectNeed(st));
        case ForecastNode => updated := Some(ForecastDemand(st, env.shortage));
        case FindSupplierNode => updated := DiscoverAndFilter(env.discovered);
        case NegotiateNode => updated := NegotiateCandidates(env.counters);
        case RiskCheckNode => updated := RiskStep(st);
        case CreateProposalNode => updated := Propose(env.approvalId, env.nonce, env.now);
        case ExecuteOrderNode => updated := Execute(env.now, env.reply);
        case VerifyResultNode => updated := Some(VerifyResult(st));
        case _ => return;
      }
      if updated == None {
        node := Aborted;
      } else {
        st := updated.value;
        node := Route(node, st);
      }
    }

    method DiscoverAndFilter(replies: seq<DiscoverReply>) returns (updated: Option<State>)
      modifies this`quoted
      ensures updated == FindSupplier(st, replies)
      ensures quoted == old(quoted) + set q | q in Answered(replies) :: (st.revision, q.supplierId)
    {
      quoted := quoted + set q | q in Answered(replies) :: (st.revision, q.supplierId);
      if !st.Request().Valid() {
        return None;
      }
      var collected := CollectQuotes(replies);
      if collected == None {
        return None;
      }
      var quotes := Filtered(st, collected.value);
      updated := Some(st.(candidates := quotes, failure := if quotes == [] then SupplierUnavailable else NoFailure));
    }

    method NegotiateCandidates(replies: seq<CounterReply>) returns (updated: Option<State>)
      ensures updated == NegotiateStep(st, suppliers, replies)
    {
      if !st.Request().Valid() {
        return None;
      }
      var outcome := Negotiate(st.candidates, st.Request(), suppliers, replies, st.history);
      match outcome
      case Raised => return None;
      case Deal(quote, history) => return Some(st.(selected := Some(quote), history := history, failure := NoFailure));
      case NoDeal(history) => return Some(st.(history := history, failure := NegotiationFailed));
    }

    method Propose(approvalId: ApprovalId, nonce: nat, now: Instant) returns (updated: Option<State>)
      modifies approvals
      ensures updated == CreateProposal(st, approvalId, nonce, now + approvals.ttl)
      ensures updated.None? ==> approvals.State() == old(approvals.State())
      ensures updated.Some? ==>
        approvals.State()
          == RequestIn(old(approvals.State()), updated.value.proposal.value, approvalId, nonce, now + approvals.ttl)
    {
      if st.selected.None? || st.requiredQuantity <= 0 {
        return None;
      }
      var proposal := st.ProposalFor(st.selected.value);
      var record, token := approvals.Request(proposal, approvalId, nonce, now);
      updated := Some(st.(proposal := Some(proposal), approvalStatus := Pending, approvalId := record.approvalId,
                          approvalToken := token));
    }

    method Execute(now: Instant, reply: PlaceReply) returns (updated: Option<State>)
      requires Wired()
      modifies this`calls, this`executions, executor
      ensures var after := AfterExecuteOrder(old(View()).(node := ExecuteOrderNode), Env(now, 0, [], [], 0, 0, reply));
        && calls == after.calls && executions == after.executions && executor.results == after.results
        && (if st.proposal.None? then updated.None? else updated == Some(after.st))
    {
      if st.proposal.None? {
        return None;
      }
      var proposal := st.proposal.value;
      var key := ExecutionKey(st.requestId, st.revision);
      var answer, called := executor.Execute(proposal, st.approvalId, st.approvalToken, key, now, reply);
      if called {
        calls := calls + [Call(st, proposal, approvals.records[st.approvalId], key, now, reply)];
      }
      executions := executions + [Execution(st.revision, proposal.supplierId, answer)];
      updated := Some(ExecuteOrder(st, proposal.supplierId, answer));
    }

    /** The authority rules first; only then is the request itself checked and the gate passed. */
    method Resume(call: ResumeCall) returns (error: Option<ResumeError>)
      modifies this, approvals
      ensures View() == AfterResume(old(View()), call)
      ensures error.None? <==>
        && !NotResumable(old(View()), call)
        && DecisionFailure(old(approvals.State()), old(st.approvalId), call.merchantId, call.token, call.now).None?
        && DecisionOf(call).Some?
    {
      if node != HumanApprovalNode || st.proposal.None? {
        return Some(NotWaiting);
      }
      if call.expectedApproval.Some? && call.expectedApproval.value != st.approvalId {
        return Some(OtherApproval);
      }
      if call.expectedProposal.Some? && call.expectedProposal.value != st.proposal.value.proposalId {
        return Some(OtherProposal);
      }
      var failure := approvals.Decide(st.approvalId, call.merchantId, call.action, call.token, call.now);
      if failure.Some? {
        return Some(Refused(failure.value));
      }
      rulings := rulings + [Ruling(st.approvalId, call.action, call.token.claims, call.now, DecisionOf(call).Some?)];
      var decision := Approve;
      if call.action == Modified {
        if call.quantity.None? && call.maxUnitPrice.None? {
          return Some(BadModification);
        }
        if call.quantity.Some? && call.quantity.value <= 0 {
          return Some(BadModification);
        }
        if call.maxUnitPrice.Some? && call.maxUnitPrice.value <= 0 {
          return Some(BadModification);
        }
        decision := Modify(call.quantity, call.maxUnitPrice);
      } else if call.action == Rejected {
        decision := Reject;
      } else if call.action != ApprovalStatus.Approved {
        return Some(BadModification);
      }
      st := ApprovalGate(st, decision);
      node := Route(HumanApprovalNode, st);
      error := None;
    }
  }
}
