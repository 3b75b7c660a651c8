/** The stored approvals: decisions and modifications, each one transaction that a refusal rolls
    back, and how the database authority compares with the one in memory. */
module ApprovalService {
  import opened Entities
  import opened Approvals

  type RowId = nat  // position in the table, which only grows

  /** An approval row with the payload stored beside its hash. revises is not a column: it names
      the row whose modification created this one, for the statements below. */
  datatype Row = Row(record: ApprovalRecord, payload: PurchaseProposal, revision: nat, revises: Option<RowId>)

  /** What a caller asks for; the identifiers and the expiry of Modify are those of the new row. */
  datatype Action =
    | Approve(token: Token)
    | MarkModified(token: Token)
    | Reject
    | Modify(quantity: Option<int>, maxUnitPrice: Option<int>, approvalId: ApprovalId, proposalId: ProposalId,
             nonce: nat, expiresAt: Instant)

  datatype Outcome = Done | Refused(failure: Failure) | NotAProposal

  /** A number given and not zero; a zero counts as not given. */
  function Given(value: Option<int>, otherwise: int): int {
    if value.Some? && value.value != 0 then value.value else otherwise
  }

  /** The revised proposal, or None where its quantity or price would not be positive. */
  function Revised(payload: PurchaseProposal, merchantId: MerchantId, proposalId: ProposalId, quantity: Option<int>,
                   maxUnitPrice: Option<int>)
    : Option<PurchaseProposal>
  {
    var amount := Given(quantity, payload.quantity);
    var limit := Given(maxUnitPrice, payload.unitPrice);
    var price := if limit < payload.unitPrice then limit else payload.unitPrice;
    if amount <= 0 || price <= 0 then None
    else Some(payload.(proposalId := proposalId, merchantId := merchantId, quantity := amount, unitPrice := price))
  }

  function StateFailure(record: ApprovalRecord, merchantId: MerchantId, now: Instant): Option<Failure> {
    if record.merchantId != merchantId then Some(OtherMerchant)
    else if record.status != Pending then Some(AlreadyDecided)
    else if record.expiresAt <= now then Some(StaleApproval)
    else None
  }

  function TokenFailure(record: ApprovalRecord, token: Token, now: Instant): Option<Failure> {
    if DecodeToken(token, now).Some? then DecodeToken(token, now)
    else if !Matches(token.claims, record) then Some(TokenMismatch)
    else None
  }

  function Result(row: Row, merchantId: MerchantId, action: Action, now: Instant): Outcome {
    if StateFailure(row.record, merchantId, now).Some? then Refused(StateFailure(row.record, merchantId, now).value)
    else
      match action
      case Reject => Done
      case Modify(quantity, maxUnitPrice, _, proposalId, _, _) =>
        if Revised(row.payload, merchantId, proposalId, quantity, maxUnitPrice).None? then NotAProposal else Done
      case _ =>
        var failure := TokenFailure(row.record, action.token, now);
        if failure.Some? then Refused(failure.value) else Done
  }

  function StatusFor(action: Action): ApprovalStatus {
    match action
    case Approve(_) => Approved
    case Reject => Rejected
    case _ => Modified
  }

  function SetRow(rows: seq<Row>, k: RowId, status: ApprovalStatus): seq<Row>
    requires k < |rows|
  {
    rows[k := rows[k].(record := rows[k].record.(status := status))]
  }

  function NewRow(payload: PurchaseProposal, approvalId: ApprovalId, nonce: nat, expiresAt: Instant, revision: nat,
                  revises: Option<RowId>): Row {
    Row(NewRecord(payload, approvalId, nonce, expiresAt), payload, revision, revises)
  }

  /** The table after the transaction: a refusal leaves no trace. */
  function After(rows: seq<Row>, k: RowId, merchantId: MerchantId, action: Action, now: Instant): seq<Row>
    requires k < |rows|
  {
    if Result(rows[k], merchantId, action, now) != Done then rows
    else
      var decided := SetRow(rows, k, StatusFor(action));
      if !action.Modify? then decided
      else
        var payload := Revised(rows[k].payload, merchantId, action.proposalId, action.quantity,
                               action.maxUnitPrice).value;
        decided + [NewRow(payload, action.approvalId, action.nonce, action.expiresAt, rows[k].revision + 1, Some(k))]
  }

  class ApprovalService {
    var rows: seq<Row>

    constructor ()
      ensures rows == []
    {
      rows := [];
    }

    method Create(payload: PurchaseProposal, approvalId: ApprovalId, nonce: nat, expiresAt: Instant, revision: nat,
                  revises: Option<RowId>)
      modifies this
      ensures rows == old(rows) + [NewRow(payload, approvalId, nonce, expiresAt, revision, revises)]
    {
      rows := rows + [Row(NewRecord(payload, approvalId, nonce, expiresAt), payload, revision, revises)];
    }

    /** Marks an expired approval before refusing it. */
    method VerifyOwnerAndState(k: RowId, merchantId: MerchantId, now: Instant) returns (failure: Option<Failure>)
      requires k < |rows|
      modifies this
      ensures failure == StateFailure(old(rows)[k].record, merchantId, now)
      ensures rows == if failure == Some(StaleApproval) then SetRow(old(rows), k, Expired) else old(rows)
    {
      var record := rows[k].record;
      if record.merchantId != merchantId {
        return Some(OtherMerchant);
      }
      if record.status != Pending {
        return Some(AlreadyDecided);
      }
      if record.expiresAt <= now {
        rows := rows[k := rows[k].(record := record.(status := Expired))];
        return Some(StaleApproval);
      }
      failure := None;
    }

    /** One decision in its own transaction on row k, which the caller's identifier named. */
    method Decide(k: RowId, merchantId: MerchantId, action: Action, now: Instant) returns (outcome: Outcome)
      requires k < |rows|
      modifies this
      ensures outcome == Result(old(rows)[k], merchantId, action, now)
      ensures rows == After(old(rows), k, merchantId, action, now)
    {
      var begun := rows;
      var failure := VerifyOwnerAndState(k, merchantId, now);
      if failure.Some? {
        rows := begun;
        return Refused(failure.value);
      }
      if action.Approve? || action.MarkModified? {
        failure := TokenFailure(rows[k].record, action.token, now);
        if failure.Some? {
          rows := begun;
          return Refused(failure.value);
        }
      }
      rows := SetRow(rows, k, StatusFor(action));
      if action.Modify? {
        var revised := Revised(rows[k].payload, merchantId, action.proposalId, action.quantity, action.maxUnitPrice);
        if revised.None? {
          rows := begun;
          return NotAProposal;
        }
        Create(revised.value, action.approvalId, action.nonce, action.expiresAt, rows[k].revision + 1, Some(k));
      }
      outcome := Done;
    }
  }

  // ----- against the authority in memory -----

  function ActionFor(status: ApprovalStatus, token: Token): Action
    requires status == Approved || status == Modified || status == Rejected
  {
    match status
    case Approved => Approve(token)
    case Modified => MarkModified(token)
    case _ => Reject
  }

  /** On the same record the two authorities come to the same record, except in two cases: the one
      in memory marks a lapsed approval, which the database rolls back; and the database rejects
      without looking at the token. */
  lemma AuthoritiesAgreeExactly(rows: seq<Row>, k: RowId, a: Authority, merchantId: MerchantId, status: ApprovalStatus,
                                token: Token, now: Instant)
    requires status == Approved || status == Modified || status == Rejected
    requires k < |rows| && rows[k].record.approvalId in a.records
    requires a.records[rows[k].record.approvalId] == rows[k].record
    ensures var record := rows[k].record;
      var stored := After(rows, k, merchantId, ActionFor(status, token), now)[k].record;
      var kept := DecideIn(a, record.approvalId, merchantId, status, token, now).records[record.approvalId];
      stored == kept <==>
        || record.merchantId != merchantId
        || record.status != Pending
        || (now < record.expiresAt && (status == Rejected ==> TokenFailure(record, token, now).None?))
  {
  }

  // ----- runs -----

  datatype Event =
    | Ask(payload: PurchaseProposal, asked: ApprovalId, drawn: nat, until: Instant, revision: nat)
    | Decision(k: RowId, merchantId: MerchantId, action: Action, now: Instant)

  function Step(rows: seq<Row>, e: Event): seq<Row> {
    match e
    case Ask(payload, approvalId, nonce, expiresAt, revision) =>
      rows + [NewRow(payload, approvalId, nonce, expiresAt, revision, None)]
    case Decision(k, merchantId, action, now) => if k < |rows| then After(rows, k, merchantId, action, now) else rows
  }

  function Run(rows: seq<Row>, events: seq<Event>): seq<Row> {
    if events == [] then rows else Step(Run(rows, events[..|events| - 1]), events[|events| - 1])
  }

  // One stored approval that expires at 10.
  const PAYLOAD := PurchaseProposal(ProposalId("r", 1), 0, 0, 7, "SALT", 1000, "kg", 2, 0, "q")
  const ASKED := NewRecord(PAYLOAD, 0, 0, 10)
  const MEMORY := Authority(map[0 := ASKED], map[0 := PAYLOAD])

  /** Both differences occur: past the expiry only the one in memory marks the record, and before it
      only the database takes a rejection with a worthless token. */
  lemma AuthoritiesDiffer()
    ensures var rows := Run([], [Ask(PAYLOAD, 0, 0, 10, 1)]);
      && |rows| == 1 && rows[0].record == ASKED
      && After(rows, 0, 0, Approve(Signed(ClaimsOf(ASKED))), 10)[0].record.status == Pending
      && DecideIn(MEMORY, 0, 0, Approved, Signed(ClaimsOf(ASKED)), 10).records[0].status == Expired
      && After(rows, 0, 0, Reject, 5)[0].record.status == Rejected
      && DecideIn(MEMORY, 0, 0, Rejected, Unverifiable, 5).records[0].status == Pending
  {
    var events := [Ask(PAYLOAD, 0, 0, 10, 1)];
    assert events[..0] == [];
    assert Run([], events) == Step(Run([], []), events[0]);
  }

  /** The proposals differ at most in their identifier, quantity and price. */
  ghost predicate SameGoods(p: PurchaseProposal, q: PurchaseProposal) {
    p == q.(proposalId := p.proposalId, quantity := p.quantity, unitPrice := p.unitPrice)
  }

  /** The row is as its modification made it: of the next revision, at no higher price, for the
      same goods from the same supplier. */
  ghost predicate Revises(row: Row, former: Row) {
    && former.record.status == Modified
    && row.revision == former.revision + 1
    && SameGoods(row.payload, former.payload)
    && 0 < row.payload.unitPrice <= former.payload.unitPrice
  }

  ghost predicate RowFits(rows: seq<Row>, k: RowId)
    requires k < |rows|
  {
    && rows[k].record.status != Expired
    && rows[k].record.orderHash == CanonicalOrderHash(rows[k].payload)
    && rows[k].record.merchantId == rows[k].payload.merchantId
    && (rows[k].revises.Some? ==> rows[k].revises.value < k && Revises(rows[k], rows[rows[k].revises.value]))
  }

  ghost predicate RevisedOnce(rows: seq<Row>) {
    forall i, j :: 0 <= i < j < |rows| && rows[i].revises.Some? ==> rows[i].revises != rows[j].revises
  }

  /** Only a row that was decided as modified has been revised, and by one row. */
  ghost predicate Inv(rows: seq<Row>) {
    && (forall k :: 0 <= k < |rows| ==> RowFits(rows, k))
    && RevisedOnce(rows)
  }

  lemma DecisionKeepsInv(rows: seq<Row>, k: RowId, merchantId: MerchantId, action: Action, now: Instant)
    requires Inv(rows) && k < |rows|
    ensures Inv(After(rows, k, merchantId, action, now))
  {
    var after := After(rows, k, merchantId, action, now);
    if Result(rows[k], merchantId, action, now) == Done {
      forall i | 0 <= i < |rows| && rows[i].revises.Some?
        ensures rows[i].revises != Some(k)
      {
        assert RowFits(rows, i);
      }
      forall i | 0 <= i < |after|
        ensures RowFits(after, i)
      {
        if i < |rows| {
          assert RowFits(rows, i);
        } else {
          assert RowFits(rows, k);
        }
      }
    }
  }

  lemma {:induction false} RunKeepsInv(events: seq<Event>)
    ensures Inv(Run([], events))
  {
    if events != [] {
      var earlier, e := events[..|events| - 1], events[|events| - 1];
      RunKeepsInv(earlier);
      var rows := Run([], earlier);
      if e.Ask? {
        forall i | 0 <= i < |rows|
          ensures RowFits(Step(rows, e), i)
        {
          assert RowFits(rows, i);
        }
      } else if e.k < |rows| {
        DecisionKeepsInv(rows, e.k, e.merchantId, e.action, e.now);
      }
    }
  }

  /** A lapsed approval is never decided: with a clock that does not run back it stays pending, the
      expiry mark never being stored. */
  lemma {:induction false} LapsedStaysPending(rows: seq<Row>, events: seq<Event>, k: RowId, since: Instant)
    requires k < |rows| && rows[k].record.status == Pending && rows[k].record.expiresAt <= since
    requires forall e :: e in events && e.Decision? ==> since <= e.now
    ensures k < |Run(rows, events)| && Run(rows, events)[k] == rows[k]
  {
    if events != [] {
      var earlier := events[..|events| - 1];
      assert events == earlier + [events[|events| - 1]];
      LapsedStaysPending(rows, earlier, k, since);
    }
  }

  // ----- chains of modifications -----

  /** The approval that a chain of modifications began with. */
  function Root(rows: seq<Row>, k: RowId): (root: RowId)
    requires k < |rows|
    ensures root <= k
  {
    if rows[k].revises.Some? && rows[k].revises.value < k then Root(rows, rows[k].revises.value) else k
  }

  /** What a later approval of a chain owes to an earlier one. */
  ghost predicate Descends(row: Row, former: Row) {
    && former.record.status == Modified
    && former.revision < row.revision
    && row.payload.unitPrice <= former.payload.unitPrice
    && SameGoods(row.payload, former.payload)
  }

  predicate Ancestor(rows: seq<Row>, i: RowId, k: RowId)
    requires k < |rows|
    decreases k
  {
    i == k || (rows[k].revises.Some? && rows[k].revises.value < k && Ancestor(rows, i, rows[k].revises.value))
  }

  lemma {:induction false} AncestorIsRevised(rows: seq<Row>, i: RowId, k: RowId)
    requires Inv(rows) && k < |rows| && i != k && Ancestor(rows, i, k)
    ensures i < k && Descends(rows[k], rows[i])
    ensures exists q :: i < q <= k && rows[q].revises == Some(i)
    decreases k
  {
    assert RowFits(rows, k);
    var p := rows[k].revises.value;
    if p != i {
      AncestorIsRevised(rows, i, p);
    }
  }

  lemma {:induction false} ChainIsALine(rows: seq<Row>, i: RowId, k: RowId)
    requires Inv(rows) && i < k < |rows| && Root(rows, i) == Root(rows, k)
    ensures Ancestor(rows, i, k)
    decreases k
  {
    assert RowFits(rows, k);
    var p := rows[k].revises.value;
    if i < p {
      ChainIsALine(rows, i, p);
    } else if p < i {
      ChainIsALine(rows, p, i);
      AncestorIsRevised(rows, p, i);
    }
  }

  /** Of the approvals that modifications made from one request, all but the newest are modified
      and so can never be approved; revisions count up, and the price never goes up. */
  lemma {:induction false} OnlyTheNewestRevisionIsLive(events: seq<Event>, i: RowId, k: RowId)
    requires i < k < |Run([], events)| && Root(Run([], events), i) == Root(Run([], events), k)
    ensures Descends(Run([], events)[k], Run([], events)[i])
  {
    RunKeepsInv(events);
    ChainIsALine(Run([], events), i, k);
    AncestorIsRevised(Run([], events), i, k);
  }

  /** No stored approval is ever marked expired, and hash and payload stay together. */
  lemma {:induction false} StoredApprovalsFit(events: seq<Event>, k: RowId)
    requires k < |Run([], events)|
    ensures var row := Run([], events)[k];
      && row.record.status != Expired
      && row.record.orderHash == CanonicalOrderHash(row.payload)
      && row.record.merchantId == row.payload.merchantId
  {
    RunKeepsInv(events);
    assert RowFits(Run([], events), k);
  }
}
