/** The main results about whole runs of a purchase thread. */
module WorkflowTheorems {
  import opened Entities
  import opened NegotiateNode
  import opened Approvals
  import opened PurchaseWorkflow
  import opened WorkflowSafety

  /** Every supplier call was inside the limits in force and backed by an approval that a merchant
      granted in time on its own token, and that is approved to this day: an approval that was
      modified, rejected or left to expire never led to a call. */
  lemma {:induction false} EveryCallIsSafe(w: World, events: seq<Event>)
    requires Started(w)
    ensures forall c :: c in Run(w, events).calls ==>
      && SafeCall(c)
      && Granted(c.record, Run(w, events).rulings)
      && c.record.approvalId in Run(w, events).authority.records
      && Run(w, events).authority.records[c.record.approvalId] == c.record
  {
    RunKeepsInv(w, events);
  }

  /** An approval is good for one supplier call, and within a revision nothing is called again
      after a call that was answered. */
  lemma {:induction false} CallsAreUsedUp(w: World, events: seq<Event>, i: nat, j: nat)
    requires Started(w) && i < j < |Run(w, events).calls|
    ensures var calls := Run(w, events).calls;
      && calls[i].record.approvalId != calls[j].record.approvalId
      && (calls[i].key == calls[j].key ==> calls[i].reply.PlaceRaised?)
  {
    RunKeepsInv(w, events);
  }

  /** From the request for approval to the execution, the thread holds the approval's own token. */
  ghost predicate HoldsToken(st: State, node: Node, records: map<ApprovalId, ApprovalRecord>) {
    node == HumanApprovalNode || node == ExecuteOrderNode ==>
      st.approvalId in records && st.approvalToken == Signed(ClaimsOf(records[st.approvalId]))
  }

  lemma ProposingKeepsToken(w: World, env: Env)
    requires w.node == CreateProposalNode
    ensures var after := AfterCreateProposal(w, env); HoldsToken(after.st, after.node, after.authority.records)
  {
  }

  lemma ExecutingLeavesTheGate(w: World, env: Env)
    requires w.node == ExecuteOrderNode
    ensures AfterExecuteOrder(w, env).node == VerifyResultNode || AfterExecuteOrder(w, env).node == Aborted
  {
  }

  lemma NodeKeepsToken(w: World, env: Env)
    requires HoldsToken(w.st, w.node, w.authority.records)
    ensures HoldsToken(AfterNode(w, env).st, AfterNode(w, env).node, AfterNode(w, env).authority.records)
  {
    match w.node
    case CreateProposalNode => ProposingKeepsToken(w, env);
    case ExecuteOrderNode => ExecutingLeavesTheGate(w, env);
    case _ =>
  }

  lemma ResumeKeepsToken(w: World, call: ResumeCall)
    requires HoldsToken(w.st, w.node, w.authority.records)
    ensures HoldsToken(AfterResume(w, call).st, AfterResume(w, call).node, AfterResume(w, call).authority.records)
  {
  }

  lemma StepKeepsToken(w: World, e: Event)
    requires HoldsToken(w.st, w.node, w.authority.records)
    ensures HoldsToken(Step(w, e).st, Step(w, e).node, Step(w, e).authority.records)
  {
    match e
    case RunNode(env) => NodeKeepsToken(w, env);
    case Resume(call) => ResumeKeepsToken(w, call);
  }

  lemma {:induction false} RunKeepsToken(w: World, events: seq<Event>)
    requires Started(w)
    ensures HoldsToken(Run(w, events).st, Run(w, events).node, Run(w, events).authority.records)
  {
    if events != [] {
      RunKeepsToken(w, events[..|events| - 1]);
      StepKeepsToken(Run(w, events[..|events| - 1]), events[|events| - 1]);
    }
  }

  /** From negotiation to execution, the thread deals with a supplier that some adapter serves. */
  ghost predicate DealsWithServed(st: State, node: Node, adapters: seq<Adapter>) {
    node in {RiskCheckNode, CreateProposalNode, HumanApprovalNode, ExecuteOrderNode} ==>
      st.selected.Some? && CanServe(adapters, st.selected.value.supplierId)
  }

  lemma NegotiationFindsServed(w: World, env: Env)
    requires w.node == NegotiateNode
    ensures DealsWithServed(AfterNode(w, env).st, AfterNode(w, env).node, w.adapters)
  {
    if w.st.Request().Valid() {
      var outcome := NegotiateFrom(w.st.candidates, 0, w.st.Request(), w.adapters, env.counters, w.st.history);
      if outcome.Deal? {
        DealIsServed(w.st.candidates, 0, w.st.Request(), w.adapters, env.counters, w.st.history);
      }
    }
  }

  lemma NodeKeepsServed(w: World, env: Env)
    requires DealsWithServed(w.st, w.node, w.adapters) && w.node != NegotiateNode
    ensures DealsWithServed(AfterNode(w, env).st, AfterNode(w, env).node, w.adapters)
  {
  }

  lemma ResumeKeepsServed(w: World, call: ResumeCall)
    requires DealsWithServed(w.st, w.node, w.adapters)
    ensures DealsWithServed(AfterResume(w, call).st, AfterResume(w, call).node, w.adapters)
  {
  }

  lemma StepKeepsAdapters(w: World, e: Event)
    ensures Step(w, e).adapters == w.adapters && Step(w, e).ttl == w.ttl
  {
  }

  lemma {:induction false} RunKeepsServed(w: World, events: seq<Event>)
    requires Started(w)
    ensures Run(w, events).adapters == w.adapters && Run(w, events).ttl == w.ttl
    ensures DealsWithServed(Run(w, events).st, Run(w, events).node, w.adapters)
  {
    if events != [] {
      var before, e := Run(w, events[..|events| - 1]), events[|events| - 1];
      RunKeepsServed(w, events[..|events| - 1]);
      StepKeepsAdapters(before, e);
      match e
      case Resume(call) => ResumeKeepsServed(before, call);
      case RunNode(env) =>
        if before.node == NegotiateNode {
          NegotiationFindsServed(before, env);
        } else {
          NodeKeepsServed(before, env);
        }
    }
  }

  /** An execution reaches the supplier exactly when its key has no answer yet and the approval has
      not lapsed since it was given: nothing else can refuse it. */
  lemma {:induction false} ApprovedOrdersAreCalledExactly(w: World, events: seq<Event>, env: Env)
    requires Started(w) && Run(w, events).node == ExecuteOrderNode
    ensures var at := Run(w, events);
      && at.st.approvalId in at.authority.records
      && (Step(at, RunNode(env)).calls != at.calls <==>
            && ExecutionKey(at.st.requestId, at.st.revision) !in at.results
            && env.now < at.authority.records[at.st.approvalId].expiresAt)
  {
    RunKeepsInv(w, events);
    RunKeepsToken(w, events);
    RunKeepsServed(w, events);
  }

  /** A finished run ended in exactly one of three ways. */
  lemma {:induction false} FinishedRunHasOneOutcome(w: World, events: seq<Event>)
    requires Started(w) && Run(w, events).node == End
    ensures var st, executions := Run(w, events).st, Run(w, events).executions;
      || (EndsVerified(st, executions) && !EndsWaiting(st, executions) && !EndsFailed(st, executions))
      || (EndsWaiting(st, executions) && !EndsVerified(st, executions) && !EndsFailed(st, executions))
      || (EndsFailed(st, executions) && !EndsVerified(st, executions) && !EndsWaiting(st, executions))
  {
    RunKeepsInv(w, events);
  }

  // ----- approvals -----

  lemma NodeSettlesRecords(w: World, env: Env)
    ensures RecordsSettle(w.authority, AfterNode(w, env).authority)
  {
  }

  lemma ResumeSettlesRecords(w: World, call: ResumeCall)
    ensures RecordsSettle(w.authority, AfterResume(w, call).authority)
  {
  }

  lemma StepSettlesRecords(w: World, e: Event)
    ensures RecordsSettle(w.authority, Step(w, e).authority)
  {
    match e
    case RunNode(env) => NodeSettlesRecords(w, env);
    case Resume(call) => ResumeSettlesRecords(w, call);
  }

  /** From any point of any run on: hash, nonce, proposal and expiry of an approval never change,
      and once it has left the pending state its status never changes either. */
  lemma {:induction false} ApprovalsSettleOnce(w: World, events: seq<Event>)
    ensures RecordsSettle(w.authority, Run(w, events).authority)
  {
    if events != [] {
      ApprovalsSettleOnce(w, events[..|events| - 1]);
      StepSettlesRecords(Run(w, events[..|events| - 1]), events[|events| - 1]);
    }
  }

  /** At most one approval of the thread is pending, and only while the gate waits for it; the
      revision counts the modifications the graph acted on. */
  lemma {:induction false} OnePendingApproval(w: World, events: seq<Event>)
    requires Started(w)
    ensures var after := Run(w, events);
      && (forall id :: id in after.authority.records && after.authority.records[id].status == Pending
            ==> after.node == HumanApprovalNode && id == after.st.approvalId)
      && after.st.revision == 1 + AppliedModifications(after.rulings)
  {
    RunKeepsInv(w, events);
  }

  /** At the gate with an approval that is no longer pending, the thread never moves again. */
  lemma {:induction false} DecidedGateIsStuck(w: World, events: seq<Event>)
    requires w.node == HumanApprovalNode && w.st.approvalId in w.authority.records
    requires w.authority.records[w.st.approvalId].status != Pending
    ensures Run(w, events).st == w.st && Run(w, events).node == w.node && Run(w, events).calls == w.calls
  {
    if events != [] {
      DecidedGateIsStuck(w, events[..|events| - 1]);
      ApprovalsSettleOnce(w, events[..|events| - 1]);
    }
  }

  lemma UsableModificationMoves(w: World, call: ResumeCall)
    requires !NotResumable(w, call) && call.action == Modified && DecisionOf(call).Some?
    requires DecisionFailure(w.authority, w.st.approvalId, call.merchantId, call.token, call.now).None?
    ensures Run(AfterResume(w, call), []).node == ForecastNode
  {
    assert Run(AfterResume(w, call), []) == AfterResume(w, call);
  }

  /** The authority rules before resume looks at the modification, so a modification without a
      usable limit uses the approval up and leaves the thread waiting at the gate for ever; exactly
      those leave it there. */
  lemma {:induction false} UnusableModificationStrands(w: World, call: ResumeCall)
    requires Inv(w) && w.node == HumanApprovalNode && !NotResumable(w, call) && call.action == Modified
    requires DecisionFailure(w.authority, w.st.approvalId, call.merchantId, call.token, call.now).None?
    ensures (forall events ::
               Run(AfterResume(w, call), events).st == w.st && Run(AfterResume(w, call), events).node == w.node) <==>
      || (call.quantity.None? && call.maxUnitPrice.None?)
      || (call.quantity.Some? && call.quantity.value <= 0)
      || (call.maxUnitPrice.Some? && call.maxUnitPrice.value <= 0)
  {
    var after := AfterResume(w, call);
    if DecisionOf(call).None? {
      forall events
        ensures Run(after, events).st == w.st && Run(after, events).node == w.node
      {
        DecidedGateIsStuck(after, events);
      }
    } else {
      UsableModificationMoves(w, call);
    }
  }

  /** The clock of every resume is at or past the given time. */
  ghost predicate NotBefore(events: seq<Event>, since: Instant) {
    forall e :: e in events && e.Resume? ==> since <= e.call.now
  }

  /** The approval is decided, or has lapsed by the given time. */
  ghost predicate IsOver(record: ApprovalRecord, since: Instant) {
    record.status != Pending || record.expiresAt <= since
  }

  lemma LapsedResumeStays(w: World, e: Event, since: Instant)
    requires w.node == HumanApprovalNode && w.st.approvalId in w.authority.records
    requires IsOver(w.authority.records[w.st.approvalId], since)
    requires e.Resume? ==> since <= e.call.now
    ensures Step(w, e).st == w.st && Step(w, e).node == w.node && Step(w, e).calls == w.calls
    ensures w.st.approvalId in Step(w, e).authority.records
    ensures IsOver(Step(w, e).authority.records[w.st.approvalId], since)
  {
  }

  /** At the gate with an approval that is decided, or that has lapsed under a clock that does not
      run back, the thread never moves again. */
  lemma {:induction false} LapsedGateIsStuck(w: World, events: seq<Event>, since: Instant)
    requires w.node == HumanApprovalNode && w.st.approvalId in w.authority.records && NotBefore(events, since)
    requires IsOver(w.authority.records[w.st.approvalId], since)
    ensures var after := Run(w, events);
      && after.st == w.st && after.node == w.node && after.calls == w.calls
      && w.st.approvalId in after.authority.records
      && IsOver(after.authority.records[w.st.approvalId], since)
  {
    if events != [] {
      assert events == events[..|events| - 1] + [events[|events| - 1]];
      LapsedGateIsStuck(w, events[..|events| - 1], since);
      LapsedResumeStays(Run(w, events[..|events| - 1]), events[|events| - 1], since);
    }
  }

  /** The merchant's own approval with the thread's own token. */
  function OwnApproval(w: World, now: Instant): ResumeCall
    requires w.st.approvalId in w.authority.records
  {
    ResumeCall(w.authority.records[w.st.approvalId].merchantId, ApprovalStatus.Approved, w.st.approvalToken, None,
               None, None, None, now)
  }

  lemma OwnApprovalMoves(w: World, now: Instant)
    requires w.node == HumanApprovalNode && w.st.proposal.Some? && HoldsToken(w.st, w.node, w.authority.records)
    requires !IsOver(w.authority.records[w.st.approvalId], now)
    ensures Run(w, [Resume(OwnApproval(w, now))]).node == ExecuteOrderNode
  {
    assert DecisionFailure(w.authority, w.st.approvalId, OwnApproval(w, now).merchantId, w.st.approvalToken, now).None?;
    assert [Resume(OwnApproval(w, now))][..0] == [];
  }

  /** A waiting thread can still be moved on if and only if its approval is undecided and has not
      lapsed. */
  lemma {:induction false} WaitingThreadMovesOnExactly(w: World, events: seq<Event>, since: Instant)
    requires Started(w) && Run(w, events).node == HumanApprovalNode
    ensures var gate := Run(w, events);
      && gate.st.approvalId in gate.authority.records
      && ((exists more :: NotBefore(more, since) && Run(gate, more).node != HumanApprovalNode) <==>
            && gate.authority.records[gate.st.approvalId].status == Pending
            && since < gate.authority.records[gate.st.approvalId].expiresAt)
  {
    var gate := Run(w, events);
    RunKeepsInv(w, events);
    RunKeepsToken(w, events);
    var record := gate.authority.records[gate.st.approvalId];
    if record.status == Pending && since < record.expiresAt {
      OwnApprovalMoves(gate, since);
      assert NotBefore([Resume(OwnApproval(gate, since))], since);
    } else {
      forall more | NotBefore(more, since)
        ensures Run(gate, more).node == HumanApprovalNode
      {
        LapsedGateIsStuck(gate, more, since);
      }
    }
  }

  // ----- recovery -----

  function ExecutionsIn(executions: seq<Execution>, revision: nat): nat {
    if executions == [] then 0
    else
      var last := executions[|executions| - 1];
      ExecutionsIn(executions[..|executions| - 1], revision) + (if last.revision == revision then 1 else 0)
  }

  /** Confirmations of the revision that came without a supplier reference. */
  ghost function BareConfirmationsIn(executions: seq<Execution>, revision: nat): nat {
    if executions == [] then 0
    else
      var last := executions[|executions| - 1];
      BareConfirmationsIn(executions[..|executions| - 1], revision)
      + (if last.revision == revision && ConfirmedWithoutReference(last) then 1 else 0)
  }

  /** The suppliers that answered discovery for the revision. */
  function QuotingSuppliers(quoted: set<(nat, SupplierId)>, revision: nat): set<SupplierId> {
    set p | p in quoted && p.0 == revision :: p.1
  }

  /** The suppliers of the revision's executions, leaving out the bare confirmations. */
  ghost function Tried(executions: seq<Execution>, revision: nat): set<SupplierId> {
    set e | e in executions && e.revision == revision && !ConfirmedWithoutReference(e) :: e.supplierId
  }

  lemma TriedGrows(earlier: seq<Execution>, last: Execution, revision: nat)
    ensures Tried(earlier + [last], revision) ==
            Tried(earlier, revision)
              + (if last.revision == revision && !ConfirmedWithoutReference(last) then {last.supplierId} else {})
  {
    assert forall e :: e in earlier + [last] <==> e in earlier || e == last;
  }

  lemma EarlierExecutionsInv(earlier: seq<Execution>, last: Execution, latest: nat, attempted: seq<SupplierId>,
                             quoted: set<(nat, SupplierId)>)
    requires ExecutionsInv(earlier + [last], latest, attempted, quoted)
    ensures ExecutionsInv(earlier, latest, attempted, quoted)
    ensures !ConfirmedWithoutReference(last) ==> last.supplierId !in Tried(earlier, last.revision)
  {
    var executions := earlier + [last];
    assert forall e :: e in earlier ==> e in executions;
    assert forall i :: 0 <= i < |earlier| ==> executions[i] == earlier[i];
    assert executions[|earlier|] == last;
  }

  lemma {:induction false} ExecutionsAreOnePerSupplier(executions: seq<Execution>, revision: nat, latest: nat,
                                                       attempted: seq<SupplierId>, quoted: set<(nat, SupplierId)>)
    requires ExecutionsInv(executions, latest, attempted, quoted)
    ensures ExecutionsIn(executions, revision)
            == |Tried(executions, revision)| + BareConfirmationsIn(executions, revision)
  {
    if executions == [] {
      assert Tried(executions, revision) == {};
    } else {
      var earlier, last := executions[..|executions| - 1], executions[|executions| - 1];
      assert executions == earlier + [last];
      EarlierExecutionsInv(earlier, last, latest, attempted, quoted);
      ExecutionsAreOnePerSupplier(earlier, revision, latest, attempted, quoted);
      TriedGrows(earlier, last, revision);
    }
  }

  lemma SubsetIsSmaller(a: set<SupplierId>, b: set<SupplierId>)
    requires a <= b
    ensures |a| <= |b|
  {
    assert b == a + (b - a);
  }

  /** Recovery stops: between two modifications there are at most as many executions as suppliers
      that quoted, plus the confirmations that came without a reference. */
  lemma {:induction false} RecoveryIsBounded(w: World, events: seq<Event>, revision: nat)
    requires Started(w)
    ensures var after := Run(w, events);
      ExecutionsIn(after.executions, revision)
      <= |QuotingSuppliers(after.quoted, revision)| + BareConfirmationsIn(after.executions, revision)
  {
    RunKeepsInv(w, events);
    var after := Run(w, events);
    ExecutionsAreOnePerSupplier(after.executions, revision, after.st.revision, after.st.attempted, after.quoted);
    forall s | s in Tried(after.executions, revision)
      ensures s in QuotingSuppliers(after.quoted, revision)
    {
      assert (revision, s) in after.quoted;
    }
    SubsetIsSmaller(Tried(after.executions, revision), QuotingSuppliers(after.quoted, revision));
  }
}
