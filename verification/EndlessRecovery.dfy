/** Why the bound on recovery counts bare confirmations: a supplier that confirms without giving a
    reference is not put on the attempted list, so the thread can come back to it for ever. */
module EndlessRecovery {
  import opened Entities
  import opened Negotiation
  import opened NegotiateNode
  import opened SupplierTools
  import opened Approvals
  import opened PurchaseWorkflow
  import opened WorkflowTheorems

  const OFFER := SupplierQuote(7, "SALT", 1000, 2, 0, "q", 0)
  const BARE := OrderResult(0, Confirmed, None)
  const START := State(0, 0, "r", "SALT", "kg", 1000, 2, 2, 2, 0, 0, 0, None, false, [], None, [], [], None, 1,
                       Pending, 0, Unverifiable, NotStarted, None, NoFailure)
  const ORIGIN := World([Adapter(None, true)], 1, START, DetectNeedNode, Authority(map[], map[]), map[], [], [], [], {})

  function At(k: nat): Event {
    RunNode(Env(0, 0, [Quotes([OFFER])], [], k, 0, Placed(BARE)))
  }

  function Approving(k: nat): Event {
    var token := Signed(ClaimsOf(NewRecord(START.ProposalFor(OFFER), k, 0, 1)));
    Resume(ResumeCall(0, ApprovalStatus.Approved, token, None, None, None, None, 0))
  }

  /** Find, negotiate, check, propose; the merchant approves; execute, verify. */
  function Round(k: nat): seq<Event> {
    [At(k), At(k), At(k), At(k), Approving(k), At(k), At(k)]
  }

  function Rounds(n: nat): seq<Event> {
    if n == 0 then [At(0), At(0)] else Rounds(n - 1) + Round(n)
  }

  /** The thread is about to look for suppliers for the (k+1)-st time in its first revision. */
  ghost predicate Circles(w: World, k: nat) {
    && w.node == FindSupplierNode
    && w.adapters == ORIGIN.adapters && w.ttl == 1
    && w.st == START.(candidates := w.st.candidates, selected := w.st.selected, history := w.st.history,
                      proposal := w.st.proposal, approvalStatus := w.st.approvalStatus,
                      approvalId := w.st.approvalId, approvalToken := w.st.approvalToken,
                      executionStatus := w.st.executionStatus, executionResult := w.st.executionResult,
                      failure := w.st.failure)
    && (forall id :: id in w.authority.records ==> id <= k)
    && (ExecutionKey("r", 1) in w.results ==> w.results[ExecutionKey("r", 1)] == BARE)
    && w.quoted <= {(1, 7)}
    && ExecutionsIn(w.executions, 1) == k
  }

  lemma RunOneMore(w: World, events: seq<Event>, e: Event)
    ensures Run(w, events + [e]) == Step(Run(w, events), e)
  {
    assert (events + [e])[..|events|] == events;
  }

  lemma {:induction false} RunConcat(w: World, first: seq<Event>, second: seq<Event>)
    ensures Run(w, first + second) == Run(Run(w, first), second)
  {
    if second == [] {
      assert first + second == first;
    } else {
      var init := second[..|second| - 1];
      RunConcat(w, first, init);
      assert (first + second)[..|first + second| - 1] == first + init;
    }
  }

  /** The state the one offer leads to; the fields that differ between rounds are parameters. */
  ghost predicate Like(w: World, before: World, node: Node, st: State) {
    && w.node == node && w.st == st
    && w.adapters == before.adapters && w.ttl == before.ttl && w.results == before.results
    && w.executions == before.executions && w.quoted <= {(1, 7)}
  }

  lemma Finds(w: World, k: nat)
    requires k > 0 && Circles(w, k - 1)
    ensures Like(Step(w, At(k)), w, NegotiateNode, w.st.(candidates := [OFFER], failure := NoFailure))
    ensures Step(w, At(k)).authority == w.authority
  {
    assert Answered([Quotes([OFFER])]) == [OFFER] by {
      assert Answered([Quotes([OFFER])][..0]) == [];
    }
    assert SortQuotes([OFFER]) == [OFFER] by {
      assert SortQuotes([OFFER][..0]) == [];
    }
    assert Filtered(w.st, [OFFER]) == [OFFER];
  }

  lemma Negotiates(w: World, k: nat)
    requires w.node == NegotiateNode && w.st.candidates == [OFFER]
    requires w.adapters == ORIGIN.adapters && w.quoted <= {(1, 7)}
    requires w.st.Request() == START.Request()
    ensures exists history ::
      Like(Step(w, At(k)), w, RiskCheckNode, w.st.(selected := Some(OFFER), history := history, failure := NoFailure))
    ensures Step(w, At(k)).authority == w.authority
  {
    var request := w.st.Request();
    assert OfferFailures(OFFER, request, ConstraintsFor(OFFER, request), 1) == [];
    assert CanServe(w.adapters, 7) by { assert Adapter(None, true) in w.adapters; }
    assert Judge(OFFER, request, w.adapters, ReplyAt([], 0)) == Agrees(OFFER);
    var history := w.st.history + Talk(OFFER, request, ReplyAt([], 0));
    assert Like(Step(w, At(k)), w, RiskCheckNode,
                w.st.(selected := Some(OFFER), history := history, failure := NoFailure));
  }

  lemma Proposes(w: World, k: nat)
    requires w.node == RiskCheckNode && w.st.selected == Some(OFFER) && w.quoted <= {(1, 7)} && w.ttl == 1
    requires w.st.requiredQuantity == 1000 && w.st.ProposalFor(OFFER) == START.ProposalFor(OFFER)
    requires w.st.quantityOnHand == w.st.reorderPoint == 0 && w.st.spendingLimit == 2
    requires k !in w.authority.records
    ensures var gate := Step(Step(w, At(k)), At(k));
      && Like(gate, w, HumanApprovalNode,
              w.st.(proposal := Some(START.ProposalFor(OFFER)), approvalStatus := Pending, approvalId := k,
                    approvalToken := Signed(ClaimsOf(NewRecord(START.ProposalFor(OFFER), k, 0, 1))),
                    failure := NoFailure))
      && gate.authority == RequestIn(w.authority, START.ProposalFor(OFFER), k, 0, 1)
  {
    var proposal := w.st.ProposalFor(OFFER);
    assert proposal.TotalAmount() == 2000;
    assert RiskReasons(w.st, proposal, OFFER) == [];
    assert Step(w, At(k)) == w.(st := w.st.(failure := NoFailure), node := CreateProposalNode);
  }

  lemma RunTwo(w: World, e: Event, f: Event)
    ensures Run(w, [e, f]) == Step(Step(w, e), f)
  {
    RunOneMore(w, [], e);
    RunOneMore(w, [e], f);
    assert [] + [e] == [e] && [e] + [f] == [e, f];
  }

  lemma RunFour(w: World, e: Event, f: Event, g: Event, h: Event)
    ensures Run(w, [e, f, g, h]) == Step(Step(Step(Step(w, e), f), g), h)
  {
    RunTwo(w, e, f);
    RunTwo(Run(w, [e, f]), g, h);
    RunConcat(w, [e, f], [g, h]);
    assert [e, f] + [g, h] == [e, f, g, h];
  }

  lemma RunSeven(w: World, e: Event, a: Event)
    ensures Run(w, [e, e, e, e, a, e, e]) == Step(Step(Step(Step(Step(Step(Step(w, e), e), e), e), a), e), e)
  {
    var gate := Run(w, [e, e, e, e]);
    var ruled := Run(gate, [a, e]);
    assert ruled == Step(Step(gate, a), e) by { RunTwo(gate, a, e); }
    assert Run(gate, [a, e] + [e]) == Step(ruled, e) by { RunOneMore(gate, [a, e], e); }
    assert [a, e] + [e] == [a, e, e] && [e, e, e, e] + [a, e, e] == [e, e, e, e, a, e, e];
    RunConcat(w, [e, e, e, e], [a, e, e]);
    RunFour(w, e, e, e, e);
  }

  /** The thread holds an approval of the one proposal, pending or approved. */
  ghost predicate HoldsApproval(w: World, k: nat, node: Node, status: ApprovalStatus) {
    && w.node == node && w.adapters == ORIGIN.adapters && w.ttl == 1
    && w.quoted <= {(1, 7)} && ExecutionsIn(w.executions, 1) == k - 1
    && w.st == START.(candidates := w.st.candidates, selected := Some(OFFER), history := w.st.history,
                      proposal := Some(START.ProposalFor(OFFER)), approvalStatus := status, approvalId := k,
                      approvalToken := Signed(ClaimsOf(NewRecord(START.ProposalFor(OFFER), k, 0, 1))),
                      executionStatus := w.st.executionStatus, executionResult := w.st.executionResult)
    && k in w.authority.records
    && w.authority.records[k] == NewRecord(START.ProposalFor(OFFER), k, 0, 1).(status := status)
    && (forall id :: id in w.authority.records ==> id <= k)
    && (ExecutionKey("r", 1) in w.results ==> w.results[ExecutionKey("r", 1)] == BARE)
  }

  lemma Approves(gate: World, k: nat)
    requires k > 0 && HoldsApproval(gate, k, HumanApprovalNode, Pending)
    ensures HoldsApproval(Step(gate, Approving(k)), k, ExecuteOrderNode, ApprovalStatus.Approved)
  {
    assert DecisionFailure(gate.authority, k, 0, Signed(ClaimsOf(gate.authority.records[k])), 0).None?;
  }

  lemma Executes(approved: World, k: nat)
    requires k > 0 && HoldsApproval(approved, k, ExecuteOrderNode, ApprovalStatus.Approved)
    ensures var executed := Step(approved, At(k));
      && executed.node == VerifyResultNode
      && executed.st == approved.st.(executionStatus := Succeeded, executionResult := Some(BARE), failure := NoFailure)
      && executed.results == approved.results[ExecutionKey("r", 1) := BARE]
      && executed.executions == approved.executions + [Execution(1, 7, Returned(BARE))]
      && executed.adapters == approved.adapters && executed.ttl == approved.ttl
      && executed.quoted == approved.quoted && executed.authority == approved.authority
  {
    assert CanServe(approved.adapters, 7) by { assert Adapter(None, true) in approved.adapters; }
  }

  lemma GoesRound(approved: World, k: nat)
    requires k > 0 && HoldsApproval(approved, k, ExecuteOrderNode, ApprovalStatus.Approved)
    ensures Circles(Step(Step(approved, At(k)), At(k)), k)
  {
    Executes(approved, k);
    var executed := Step(approved, At(k));
    assert executed.executions[..|executed.executions| - 1] == approved.executions;
    assert executed.st.executionStatus == Succeeded;
  }

  /** The thread has agreed on the one offer for the k-th time. */
  ghost predicate HasAgreed(w: World, k: nat) {
    && w.node == RiskCheckNode && w.adapters == ORIGIN.adapters && w.ttl == 1
    && w.quoted <= {(1, 7)} && ExecutionsIn(w.executions, 1) == k - 1
    && w.st == START.(candidates := w.st.candidates, selected := Some(OFFER), history := w.st.history,
                      proposal := w.st.proposal, approvalStatus := w.st.approvalStatus,
                      approvalId := w.st.approvalId, approvalToken := w.st.approvalToken,
                      executionStatus := w.st.executionStatus, executionResult := w.st.executionResult)
    && (forall id :: id in w.authority.records ==> id < k)
    && (ExecutionKey("r", 1) in w.results ==> w.results[ExecutionKey("r", 1)] == BARE)
  }

  lemma ReachesAgreement(w: World, k: nat)
    requires k > 0 && Circles(w, k - 1)
    ensures HasAgreed(Step(Step(w, At(k)), At(k)), k)
  {
    Finds(w, k);
    Negotiates(Step(w, At(k)), k);
  }

  lemma AgreementReachesGate(agreed: World, k: nat)
    requires k > 0 && HasAgreed(agreed, k)
    ensures HoldsApproval(Step(Step(agreed, At(k)), At(k)), k, HumanApprovalNode, Pending)
  {
    Proposes(agreed, k);
  }

  lemma ReachesGate(w: World, k: nat)
    requires k > 0 && Circles(w, k - 1)
    ensures HoldsApproval(Step(Step(Step(Step(w, At(k)), At(k)), At(k)), At(k)), k, HumanApprovalNode, Pending)
  {
    ReachesAgreement(w, k);
    AgreementReachesGate(Step(Step(w, At(k)), At(k)), k);
  }

  lemma RoundCloses(w: World, k: nat)
    requires k > 0 && Circles(w, k - 1)
    ensures Circles(Run(w, Round(k)), k)
  {
    var gate := Step(Step(Step(Step(w, At(k)), At(k)), At(k)), At(k));
    ReachesGate(w, k);
    Approves(gate, k);
    GoesRound(Step(gate, Approving(k)), k);
    RunSeven(w, At(k), Approving(k));
  }

  lemma {:induction false} RoundsCircle(n: nat)
    ensures Circles(Run(ORIGIN, Rounds(n)), n)
  {
    if n == 0 {
      RunOneMore(ORIGIN, [], At(0));
      RunOneMore(ORIGIN, [At(0)], At(0));
      assert [At(0)] + [At(0)] == Rounds(0) && [] + [At(0)] == [At(0)];
    } else {
      RoundsCircle(n - 1);
      RoundCloses(Run(ORIGIN, Rounds(n - 1)), n);
      RunConcat(ORIGIN, Rounds(n - 1), Round(n));
    }
  }

  /** Without the reference there is no bound: any number of executions in one revision, with one
      supplier quoting. */
  lemma RecoveryNeedsReferences(n: nat)
    ensures exists w, events ::
      && Started(w)
      && ExecutionsIn(Run(w, events).executions, 1) == n
      && QuotingSuppliers(Run(w, events).quoted, 1) <= {7}
  {
    RoundsCircle(n);
    var quoted := Run(ORIGIN, Rounds(n)).quoted;
    assert forall s :: s in QuotingSuppliers(quoted, 1) ==> (1, s) in quoted;
    assert Started(ORIGIN) && ExecutionsIn(Run(ORIGIN, Rounds(n)).executions, 1) == n;
  }
}
