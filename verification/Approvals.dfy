/** The in-memory approval authority and the executor that acts only on what it granted. */
module Approvals {
  import opened Entities
  import opened NegotiateNode

  datatype ApprovalStatus = Pending | Approved | Modified | Rejected | Expired

  datatype ApprovalRecord = ApprovalRecord(
    approvalId: ApprovalId,
    proposalId: ProposalId,
    merchantId: MerchantId,
    orderHash: OrderHash,
    nonce: nat,
    status: ApprovalStatus,
    expiresAt: Instant)

  /** What an approval token says once its signature is checked. */
  datatype Claims = Claims(
    merchantId: MerchantId,
    proposalId: ProposalId,
    approvalId: ApprovalId,
    orderHash: OrderHash,
    nonce: nat,
    expiresAt: Instant)

  datatype Token = Signed(claims: Claims) | Unverifiable

  datatype Failure =
    | UnknownApproval | OtherMerchant | AlreadyDecided | StaleApproval | InvalidToken | TokenMismatch
    | NotApproved | PayloadDiffers | NoAdapter | SupplierError

  datatype Authority = Authority(
    records: map<ApprovalId, ApprovalRecord>,
    proposals: map<ApprovalId, PurchaseProposal>)

  function ClaimsOf(record: ApprovalRecord): Claims {
    Claims(record.merchantId, record.proposalId, record.approvalId, record.orderHash, record.nonce, record.expiresAt)
  }

  /** The claims agree with the record on everything but the expiry, which is checked apart. */
  predicate Matches(claims: Claims, record: ApprovalRecord) {
    claims.(expiresAt := record.expiresAt) == ClaimsOf(record)
  }

  function DecodeToken(token: Token, now: Instant): (failure: Option<Failure>) {
    if token.Unverifiable? then Some(InvalidToken)
    else if token.claims.expiresAt <= now then Some(StaleApproval)
    else None
  }

  function NewRecord(proposal: PurchaseProposal, approvalId: ApprovalId, nonce: nat,
                     expiresAt: Instant): ApprovalRecord {
    ApprovalRecord(approvalId, proposal.proposalId, proposal.merchantId, CanonicalOrderHash(proposal), nonce, Pending,
                   expiresAt)
  }

  function RequestIn(a: Authority, proposal: PurchaseProposal, approvalId: ApprovalId, nonce: nat,
                     expiresAt: Instant): Authority {
    Authority(a.records[approvalId := NewRecord(proposal, approvalId, nonce, expiresAt)],
              a.proposals[approvalId := proposal])
  }

  /** Why a decision is refused, if it is. */
  function DecisionFailure(a: Authority, approvalId: ApprovalId, merchantId: MerchantId, token: Token,
                           now: Instant): Option<Failure> {
    if approvalId !in a.records then Some(UnknownApproval)
    else
      var record := a.records[approvalId];
      if record.merchantId != merchantId then Some(OtherMerchant)
      else if record.status != Pending then Some(AlreadyDecided)
      else if record.expiresAt <= now then Some(StaleApproval)
      else if DecodeToken(token, now).Some? then DecodeToken(token, now)
      else if !Matches(token.claims, record) then Some(TokenMismatch)
      else None
  }

  function SetStatus(a: Authority, approvalId: ApprovalId, status: ApprovalStatus): Authority
    requires approvalId in a.records
  {
    a.(records := a.records[approvalId := a.records[approvalId].(status := status)])
  }

  /** The authority after a decision was asked for: refused decisions leave it alone, except that
      a merchant's pending but expired approval is marked so. */
  function DecideIn(a: Authority, approvalId: ApprovalId, merchantId: MerchantId, action: ApprovalStatus, token: Token,
                    now: Instant): Authority {
    if DecisionFailure(a, approvalId, merchantId, token, now).None? then SetStatus(a, approvalId, action)
    else if approvalId in a.records && a.records[approvalId].merchantId == merchantId
            && a.records[approvalId].status == Pending && a.records[approvalId].expiresAt <= now
    then SetStatus(a, approvalId, Expired)
    else a
  }

  class InMemoryApprovalAuthority {
    const ttl: nat
    var records: map<ApprovalId, ApprovalRecord>
    var proposals: map<ApprovalId, PurchaseProposal>

    constructor (ttl: nat)
      ensures State() == Authority(map[], map[])
    {
      this.ttl := ttl;
      records, proposals := map[], map[];
    }

    function State(): Authority
      reads this
    {
      Authority(records, proposals)
    }

    /** approvalId and nonce are the fresh random values this call draws. */
    method Request(proposal: PurchaseProposal, approvalId: ApprovalId, nonce: nat, now: Instant)
      returns (record: ApprovalRecord, token: Token)
      modifies this
      ensures State() == RequestIn(old(State()), proposal, approvalId, nonce, now + ttl)
      ensures record == State().records[approvalId]
      ensures token == Signed(ClaimsOf(record))
    {
      record := ApprovalRecord(approvalId, proposal.proposalId, proposal.merchantId, CanonicalOrderHash(proposal),
                               nonce, Pending, now + ttl);
      records := records[record.approvalId := record];
      proposals := proposals[record.approvalId := proposal];
      token := Signed(Claims(record.merchantId, record.proposalId, record.approvalId, record.orderHash, record.nonce,
                             record.expiresAt));
    }

    method Decide(approvalId: ApprovalId, merchantId: MerchantId, action: ApprovalStatus, token: Token, now: Instant)
      returns (failure: Option<Failure>)
      modifies this
      ensures failure == DecisionFailure(old(State()), approvalId, merchantId, token, now)
      ensures State() == DecideIn(old(State()), approvalId, merchantId, action, token, now)
    {
      if approvalId !in records {
        return Some(UnknownApproval);
      }
      var record := records[approvalId];
      if record.merchantId != merchantId {
        return Some(OtherMerchant);
      }
      if record.status != Pending {
        return Some(AlreadyDecided);
      }
      if record.expiresAt <= now {
        records := records[approvalId := record.(status := Expired)];
        return Some(StaleApproval);
      }
      failure := DecodeToken(token, now);
      if failure.Some? {
        return;
      }
      var claims := token.claims;
      if claims.merchantId != record.merchantId || claims.proposalId != record.proposalId
         || claims.approvalId != record.approvalId || claims.orderHash != record.orderHash
         || claims.nonce != record.nonce {
        return Some(TokenMismatch);
      }
      records := records[approvalId := record.(status := action)];
    }
  }

  // ----- execution -----

  /** One execution key per request and revision. */
  datatype ExecutionKey = ExecutionKey(requestId: string, revision: nat)

  /** What place_order does: raise, or return a result. */
  datatype PlaceReply = PlaceRaised | Placed(result: OrderResult)

  /** What the executor does. */
  datatype Answer = Threw(failure: Failure) | Returned(result: OrderResult)

  /** The first guard that stops an execution before the supplier is called. */
  function GuardFailure(a: Authority, adapters: seq<Adapter>, proposal: PurchaseProposal, approvalId: ApprovalId,
                        token: Token, now: Instant): Option<Failure> {
    if approvalId !in a.records then Some(UnknownApproval)
    else
      var record := a.records[approvalId];
      if record.status != Approved then Some(NotApproved)
      else if record.expiresAt <= now then Some(StaleApproval)
      else if record.orderHash != CanonicalOrderHash(proposal) then Some(PayloadDiffers)
      else if DecodeToken(token, now).Some? then DecodeToken(token, now)
      else if token.claims.approvalId != approvalId || token.claims.orderHash != record.orderHash then
        Some(TokenMismatch)
      else if !CanServe(adapters, proposal.supplierId) then Some(NoAdapter)
      else None
  }

  /** Whether an execution reaches the supplier. */
  predicate CallsSupplier(results: map<ExecutionKey, OrderResult>, a: Authority, adapters: seq<Adapter>,
                          proposal: PurchaseProposal, approvalId: ApprovalId, token: Token, key: ExecutionKey,
                          now: Instant) {
    key !in results && GuardFailure(a, adapters, proposal, approvalId, token, now).None?
  }

  function ExecuteAnswer(results: map<ExecutionKey, OrderResult>, a: Authority, adapters: seq<Adapter>,
                         proposal: PurchaseProposal, approvalId: ApprovalId, token: Token, key: ExecutionKey,
                         now: Instant, reply: PlaceReply): Answer {
    if key in results then Returned(results[key])
    else if GuardFailure(a, adapters, proposal, approvalId, token, now).Some? then
      Threw(GuardFailure(a, adapters, proposal, approvalId, token, now).value)
    else if reply.PlaceRaised? then Threw(SupplierError)
    else Returned(reply.result)
  }

  /** Only a result that place_order returned is remembered. */
  function ExecuteResults(results: map<ExecutionKey, OrderResult>, a: Authority, adapters: seq<Adapter>,
                          proposal: PurchaseProposal, approvalId: ApprovalId, token: Token, key: ExecutionKey,
                          now: Instant, reply: PlaceReply): map<ExecutionKey, OrderResult> {
    if CallsSupplier(results, a, adapters, proposal, approvalId, token, key, now) && reply.Placed?
    then results[key := reply.result] else results
  }

  class SecureMemoryTransactionExecutor {
    const approvals: InMemoryApprovalAuthority
    const suppliers: seq<Adapter>
    var results: map<ExecutionKey, OrderResult>

    constructor (approvals: InMemoryApprovalAuthority, suppliers: seq<Adapter>)
      ensures this.approvals == approvals && this.suppliers == suppliers && results == map[]
    {
      this.approvals := approvals;
      this.suppliers := suppliers;
      results := map[];
    }

    /** reply is what place_order would do now; called says whether it was asked. */
    method Execute(proposal: PurchaseProposal, approvalId: ApprovalId, token: Token, key: ExecutionKey, now: Instant,
                   reply: PlaceReply)
      returns (answer: Answer, called: bool)
      modifies this
      ensures called == CallsSupplier(old(results), approvals.State(), suppliers, proposal, approvalId, token, key, now)
      ensures answer == ExecuteAnswer(old(results), approvals.State(), suppliers, proposal, approvalId, token, key, now,
                                      reply)
      ensures results == ExecuteResults(old(results), approvals.State(), suppliers, proposal, approvalId, token, key,
                                        now, reply)
    {
      called := false;
      if key in results {
        return Returned(results[key]), called;
      }
      if approvalId !in approvals.records {
        return Threw(UnknownApproval), called;
      }
      var approval := approvals.records[approvalId];
      if approval.status != Approved {
        return Threw(NotApproved), called;
      }
      if approval.expiresAt <= now {
        return Threw(StaleApproval), called;
      }
      if approval.orderHash != CanonicalOrderHash(proposal) {
        return Threw(PayloadDiffers), called;
      }
      var undecodable := DecodeToken(token, now);
      if undecodable.Some? {
        return Threw(undecodable.value), called;
      }
      if token.claims.approvalId != approvalId || token.claims.orderHash != approval.orderHash {
        return Threw(TokenMismatch), called;
      }
      var supplier := FindAdapter(suppliers, proposal.supplierId);
      if supplier == None {
        return Threw(NoAdapter), called;
      }
      called := true;
      if reply.PlaceRaised? {
        return Threw(SupplierError), called;
      }
      results := results[key := reply.result];
      answer := Returned(reply.result);
    }
  }

  // ----- what holds of the authority -----

  /** Everything but the status is fixed, and a status other than Pending is final. */
  ghost predicate Settled(before: ApprovalRecord, after: ApprovalRecord) {
    && after == before.(status := after.status)
    && (before.status != Pending ==> after == before)
  }

  ghost predicate RecordsSettle(before: Authority, after: Authority) {
    forall id :: id in before.records ==> id in after.records && Settled(before.records[id], after.records[id])
  }

  /** A decision goes through exactly for the owner of a pending, unexpired approval who holds
      its unexpired token; and no decision ever touches a record that was already decided. */
  lemma DecisionGoesThroughExactly(a: Authority, approvalId: ApprovalId, merchantId: MerchantId, action: ApprovalStatus,
                                   token: Token, now: Instant)
    ensures DecisionFailure(a, approvalId, merchantId, token, now).None? <==>
      && approvalId in a.records
      && a.records[approvalId].merchantId == merchantId
      && a.records[approvalId].status == Pending
      && now < a.records[approvalId].expiresAt
      && token.Signed? && Matches(token.claims, a.records[approvalId]) && now < token.claims.expiresAt
    ensures RecordsSettle(a, DecideIn(a, approvalId, merchantId, action, token, now))
    ensures forall id :: id in a.records && id != approvalId
              ==> DecideIn(a, approvalId, merchantId, action, token, now).records[id] == a.records[id]
  {
  }
}
