/** Concurrent order executions against one database: an unlocked lookup, the approval row lock,
    the guards, the insert under three unique constraints, the supplier call and the commit, each
    an atomic step of one of any number of workers. */
module OrderExecution {
  import opened Money
  import opened Entities
  import opened Approvals

  /** An approval row; the payload is stored beside the hash that was taken of it. */
  datatype ApprovalRow = ApprovalRow(record: ApprovalRecord, payload: PurchaseProposal)

  datatype OrderRow = OrderRow(
    merchantId: MerchantId,
    key: string,
    proposalId: ProposalId,
    approvalId: ApprovalId,
    orderHash: OrderHash,
    status: OrderStatus)

  datatype Request = Request(approvalId: ApprovalId, merchantId: MerchantId, key: string, token: Token)

  datatype Phase =
    | Arrived
    | KeyIsFree                       // the lookup found no committed order
    | Locked                          // holds the approval row
    | Guarded                         // the guards passed under the lock
    | Flushed(row: OrderRow)          // the rows are inserted, not committed
    | Called(row: OrderRow)           // place_order was called; the outcome is recorded in the row
    | Committed(row: OrderRow)
    | Replayed(row: OrderRow)         // an earlier order under the same key was returned
    | RolledBack                      // raised before the supplier was called
    | Lost(row: OrderRow)             // rolled back after the supplier was called

  datatype Worker = Worker(request: Request, phase: Phase)
  {
    predicate HoldsLock() {
      phase.Locked? || phase.Guarded? || phase.Flushed? || phase.Called?
    }
    predicate HoldsRow() {
      phase.Flushed? || phase.Called?
    }
    predicate KeepsRow() {
      phase.Flushed? || phase.Called? || phase.Committed?
    }
    predicate HasCalled() {
      phase.Called? || phase.Committed? || phase.Lost?
    }
  }

  /** A place_order call: which worker made it, and the approval's status at that moment. */
  datatype SupplierCall = SupplierCall(worker: nat, proposalId: ProposalId, approvalId: ApprovalId,
                                       status: ApprovalStatus)

  datatype Database = Database(
    limits: map<MerchantId, nat>,     // the merchants and their spending limits
    approvals: map<ApprovalId, ApprovalRow>,
    orders: seq<OrderRow>,            // committed
    workers: seq<Worker>,
    calls: seq<SupplierCall>)

  datatype Move =
    | Arrive(request: Request)
    | Look(i: nat)
    | Lock(i: nat)
    | Check(i: nat, now: Instant)
    | Insert(i: nat)
    | Place(i: nat, reply: PlaceReply)
    | Commit(i: nat)
    | RollBack(i: nat)
    | Lose(i: nat)
    | Ask(approvalId: ApprovalId, payload: PurchaseProposal, nonce: nat, expiresAt: Instant)
    | Rule(approvalId: ApprovalId, status: ApprovalStatus)

  predicate Conflict(a: OrderRow, b: OrderRow) {
    || a.proposalId == b.proposalId
    || a.orderHash == b.orderHash
    || (a.merchantId == b.merchantId && a.key == b.key)
  }

  function Set(db: Database, i: nat, phase: Phase): Database
    requires i < |db.workers|
  {
    db.(workers := db.workers[i := db.workers[i].(phase := phase)])
  }

  predicate IsLocked(db: Database, approvalId: ApprovalId) {
    exists i :: 0 <= i < |db.workers| && db.workers[i].HoldsLock() && db.workers[i].request.approvalId == approvalId
  }

  /** The first committed order under the merchant's key. */
  function ByKey(orders: seq<OrderRow>, merchantId: MerchantId, key: string): (found: Option<OrderRow>)
    ensures found.Some? ==> found.value in orders && found.value.merchantId == merchantId && found.value.key == key
    ensures found.None? ==> forall row :: row in orders ==> row.merchantId != merchantId || row.key != key
  {
    if orders == [] then None
    else if orders[0].merchantId == merchantId && orders[0].key == key then Some(orders[0])
    else ByKey(orders[1..], merchantId, key)
  }

  predicate PassesGuards(db: Database, request: Request, now: Instant)
    requires request.approvalId in db.approvals
  {
    var row := db.approvals[request.approvalId];
    && row.record.merchantId == request.merchantId
    && row.record.status == ApprovalStatus.Approved
    && now < row.record.expiresAt
    && DecodeToken(request.token, now).None? && Matches(request.token.claims, row.record)
    && CanonicalOrderHash(row.payload) == row.record.orderHash
    && request.merchantId in db.limits
    && row.payload.TotalAmount() <= db.limits[request.merchantId] * ONE_UNIT
  }

  function NewRow(request: Request, approval: ApprovalRow): OrderRow {
    OrderRow(request.merchantId, request.key, approval.payload.proposalId, request.approvalId,
             approval.record.orderHash, Executing)
  }

  /** The order's status once place_order has answered; an exception is recorded, not raised. */
  function StatusAfter(reply: PlaceReply): OrderStatus {
    if reply.PlaceRaised? then OrderFailed else reply.result.status
  }

  /** A move that is not possible, or that waits for a lock or for another worker's uncommitted
      row, changes nothing. */
  function Step(db: Database, m: Move): Database {
    match m
    case Arrive(request) => db.(workers := db.workers + [Worker(request, Arrived)])
    case Ask(approvalId, payload, nonce, expiresAt) =>
      if approvalId in db.approvals then db
      else db.(approvals := db.approvals[approvalId := ApprovalRow(NewRecord(payload, approvalId, nonce, expiresAt),
                                                                   payload)])
    case Rule(approvalId, status) =>
      if approvalId in db.approvals && db.approvals[approvalId].record.status == Pending && !IsLocked(db, approvalId)
      then
        var row := db.approvals[approvalId];
        db.(approvals := db.approvals[approvalId := row.(record := row.record.(status := status))])
      else db
    case _ =>
      if m.i >= |db.workers| then db else WorkerStep(db, m)
  }

  function WorkerStep(db: Database, m: Move): Database
    requires !m.Arrive? && !m.Ask? && !m.Rule? && m.i < |db.workers|
  {
    var i := m.i;
    var request, phase := db.workers[i].request, db.workers[i].phase;
    match m
    case Look(_) =>
      if !phase.Arrived? then db
      else
        var found := ByKey(db.orders, request.merchantId, request.key);
        Set(db, i, if found.Some? then Replayed(found.value) else KeyIsFree)
    case Lock(_) =>
      if !phase.KeyIsFree? || IsLocked(db, request.approvalId) then db
      else if request.approvalId !in db.approvals then Set(db, i, RolledBack)
      else Set(db, i, Locked)
    case Check(_, now) =>
      if !phase.Locked? || request.approvalId !in db.approvals then db
      else Set(db, i, if PassesGuards(db, request, now) then Guarded else RolledBack)
    case Insert(_) =>
      if !phase.Guarded? || request.approvalId !in db.approvals then db
      else
        var row := NewRow(request, db.approvals[request.approvalId]);
        if exists w :: w in db.workers && w.HoldsRow() && Conflict(w.phase.row, row) then db
        else if exists taken :: taken in db.orders && Conflict(taken, row) then Set(db, i, RolledBack)
        else Set(db, i, Flushed(row))
    case Place(_, reply) =>
      if !phase.Flushed? || request.approvalId !in db.approvals then db
      else
        var call := SupplierCall(i, phase.row.proposalId, phase.row.approvalId,
                                 db.approvals[request.approvalId].record.status);
        Set(db, i, Called(phase.row.(status := StatusAfter(reply)))).(calls := db.calls + [call])
    case Commit(_) =>
      if !phase.Called? then db
      else Set(db, i, Committed(phase.row)).(orders := db.orders + [phase.row])
    case RollBack(_) =>
      if phase.Called? || phase.Committed? || phase.Replayed? || phase.Lost? then db else Set(db, i, RolledBack)
    case Lose(_) =>
      if !phase.Called? then db else Set(db, i, Lost(phase.row))
  }

  function Run(db: Database, moves: seq<Move>): Database {
    if moves == [] then db else Step(Run(db, moves[..|moves| - 1]), moves[|moves| - 1])
  }

  // ----- invariant -----

  ghost predicate Initial(db: Database) {
    db.approvals == map[] && db.orders == [] && db.workers == [] && db.calls == []
  }

  /** Nothing committed or flushed breaks a unique constraint. */
  ghost predicate RowsInv(orders: seq<OrderRow>, workers: seq<Worker>) {
    && (forall a, b :: 0 <= a < b < |orders| ==> !Conflict(orders[a], orders[b]))
    && (forall i, a :: 0 <= i < |workers| && workers[i].HoldsRow() && a in orders ==>
          !Conflict(workers[i].phase.row, a))
    && (forall i :: 0 <= i < |workers| && workers[i].phase.Committed? ==> workers[i].phase.row in orders)
    && (forall i, j :: 0 <= i < j < |workers| && workers[i].KeepsRow() && workers[j].KeepsRow()
          ==> !Conflict(workers[i].phase.row, workers[j].phase.row))
  }

  ghost predicate LocksInv(workers: seq<Worker>) {
    forall i, j :: 0 <= i < j < |workers| && workers[i].HoldsLock() && workers[j].HoldsLock()
      ==> workers[i].request.approvalId != workers[j].request.approvalId
  }

  ghost predicate RowIsForApproval(row: OrderRow, approvalId: ApprovalId, approvals: map<ApprovalId, ApprovalRow>) {
    && approvalId in approvals
    && approvals[approvalId].record.status == ApprovalStatus.Approved
    && row.approvalId == approvalId
    && row.proposalId == approvals[approvalId].payload.proposalId
  }

  ghost predicate WorkerInv(w: Worker, approvals: map<ApprovalId, ApprovalRow>, orders: seq<OrderRow>) {
    && (w.phase.Guarded? ==>
          w.request.approvalId in approvals && approvals[w.request.approvalId].record.status == ApprovalStatus.Approved)
    && (w.phase.Flushed? || w.HasCalled() ==> RowIsForApproval(w.phase.row, w.request.approvalId, approvals))
    && (w.phase.Replayed? ==> w.phase.row in orders)
    && (w.phase.Replayed? ==> w.phase.row.merchantId == w.request.merchantId && w.phase.row.key == w.request.key)
  }

  ghost predicate CallsInv(calls: seq<SupplierCall>, workers: seq<Worker>) {
    && (forall c :: c in calls ==>
          && c.worker < |workers| && workers[c.worker].HasCalled()
          && c.proposalId == workers[c.worker].phase.row.proposalId
          && c.approvalId == workers[c.worker].phase.row.approvalId
          && c.status == ApprovalStatus.Approved)
    && (forall a, b :: 0 <= a < b < |calls| ==> calls[a].worker != calls[b].worker)
  }

  ghost predicate Inv(db: Database) {
    && RowsInv(db.orders, db.workers)
    && LocksInv(db.workers)
    && (forall i :: 0 <= i < |db.workers| ==> WorkerInv(db.workers[i], db.approvals, db.orders))
    && CallsInv(db.calls, db.workers)
  }

  /** A worker that gains no row keeps the rows apart. */
  lemma ReleaseKeepsRows(orders: seq<OrderRow>, workers: seq<Worker>, i: nat, phase: Phase)
    requires RowsInv(orders, workers) && i < |workers|
    requires phase.Called? ==>
               workers[i].phase.Flushed? && phase.row == workers[i].phase.row.(status := phase.row.status)
    requires !phase.Flushed? && !phase.Committed?
    ensures RowsInv(orders, workers[i := workers[i].(phase := phase)])
  {
  }

  lemma InsertKeepsRows(orders: seq<OrderRow>, workers: seq<Worker>, i: nat, row: OrderRow)
    requires RowsInv(orders, workers) && i < |workers|
    requires forall j :: 0 <= j < |workers| && workers[j].HoldsRow() ==> !Conflict(workers[j].phase.row, row)
    requires forall taken :: taken in orders ==> !Conflict(taken, row)
    ensures RowsInv(orders, workers[i := workers[i].(phase := Flushed(row))])
  {
  }

  lemma CommitKeepsRows(orders: seq<OrderRow>, workers: seq<Worker>, i: nat)
    requires RowsInv(orders, workers) && i < |workers| && workers[i].phase.Called?
    ensures RowsInv(orders + [workers[i].phase.row],
                    workers[i := workers[i].(phase := Committed(workers[i].phase.row))])
  {
    var row := workers[i].phase.row;
    forall j | 0 <= j < |workers| && j != i && workers[j].HoldsRow()
      ensures !Conflict(workers[j].phase.row, row)
    {
      assert !Conflict(workers[if i < j then i else j].phase.row, workers[if i < j then j else i].phase.row);
    }
    assert forall k :: 0 <= k < |orders| ==> orders[k] in orders;
  }

  lemma WorkerStepKeepsRows(db: Database, m: Move)
    requires Inv(db) && !m.Arrive? && !m.Ask? && !m.Rule? && m.i < |db.workers|
    ensures RowsInv(WorkerStep(db, m).orders, WorkerStep(db, m).workers)
  {
    var phase := WorkerStep(db, m).workers[m.i].phase;
    if m.Commit? && db.workers[m.i].phase.Called? {
      CommitKeepsRows(db.orders, db.workers, m.i);
    } else if m.Insert? && WorkerStep(db, m) != db && phase.Flushed? {
      InsertKeepsRows(db.orders, db.workers, m.i, phase.row);
    } else if WorkerStep(db, m) != db {
      ReleaseKeepsRows(db.orders, db.workers, m.i, phase);
    }
  }

  /** A worker's step changes at most that worker's phase, and no approval. */
  lemma WorkerStepSetsPhase(db: Database, m: Move)
    requires !m.Arrive? && !m.Ask? && !m.Rule? && m.i < |db.workers|
    ensures var after := WorkerStep(db, m);
      && after.approvals == db.approvals
      && |after.workers| == |db.workers|
      && after.workers == db.workers[m.i := db.workers[m.i].(phase := after.workers[m.i].phase)]
  {
  }

  lemma PhaseKeepsLocks(workers: seq<Worker>, i: nat, phase: Phase)
    requires LocksInv(workers) && i < |workers|
    requires workers[i].(phase := phase).HoldsLock() && !workers[i].HoldsLock() ==>
      forall j :: 0 <= j < |workers| && workers[j].HoldsLock() ==>
        workers[j].request.approvalId != workers[i].request.approvalId
    ensures LocksInv(workers[i := workers[i].(phase := phase)])
  {
  }

  lemma WorkerStepKeepsLocks(db: Database, m: Move)
    requires Inv(db) && !m.Arrive? && !m.Ask? && !m.Rule? && m.i < |db.workers|
    ensures LocksInv(WorkerStep(db, m).workers)
  {
    WorkerStepSetsPhase(db, m);
    PhaseKeepsLocks(db.workers, m.i, WorkerStep(db, m).workers[m.i].phase);
  }

  lemma WorkerStepKeepsWorkers(db: Database, m: Move)
    requires Inv(db) && !m.Arrive? && !m.Ask? && !m.Rule? && m.i < |db.workers|
    ensures var after := WorkerStep(db, m);
      forall i :: 0 <= i < |after.workers| ==> WorkerInv(after.workers[i], after.approvals, after.orders)
  {
  }

  /** Once a worker has called, it keeps its row's proposal and approval. */
  lemma PhaseKeepsCalls(calls: seq<SupplierCall>, workers: seq<Worker>, i: nat, phase: Phase)
    requires CallsInv(calls, workers) && i < |workers|
    requires workers[i].HasCalled() ==>
      && workers[i].(phase := phase).HasCalled()
      && phase.row.proposalId == workers[i].phase.row.proposalId
      && phase.row.approvalId == workers[i].phase.row.approvalId
    ensures CallsInv(calls, workers[i := workers[i].(phase := phase)])
  {
  }

  lemma PlaceKeepsCalls(db: Database, i: nat, reply: PlaceReply)
    requires Inv(db) && i < |db.workers|
    ensures CallsInv(WorkerStep(db, Place(i, reply)).calls, WorkerStep(db, Place(i, reply)).workers)
  {
    assert forall c :: c in db.calls ==> db.workers[c.worker].HasCalled();
  }

  lemma WorkerStepKeepsCalls(db: Database, m: Move)
    requires Inv(db) && !m.Arrive? && !m.Ask? && !m.Rule? && m.i < |db.workers|
    ensures CallsInv(WorkerStep(db, m).calls, WorkerStep(db, m).workers)
  {
    if m.Place? {
      PlaceKeepsCalls(db, m.i, m.reply);
    } else {
      WorkerStepSetsPhase(db, m);
      PhaseKeepsCalls(db.calls, db.workers, m.i, WorkerStep(db, m).workers[m.i].phase);
    }
  }

  lemma ArriveKeepsInv(db: Database, request: Request)
    requires Inv(db)
    ensures Inv(Step(db, Arrive(request)))
  {
  }

  /** A ruling waits for the lock, so no guarded worker sees its approval change. */
  lemma RuleKeepsInv(db: Database, approvalId: ApprovalId, status: ApprovalStatus)
    requires Inv(db)
    ensures Inv(Step(db, Rule(approvalId, status)))
  {
  }

  lemma StepKeepsInv(db: Database, m: Move)
    requires Inv(db)
    ensures Inv(Step(db, m))
  {
    match m
    case Arrive(request) => ArriveKeepsInv(db, request);
    case Ask(_, _, _, _) =>
    case Rule(approvalId, status) => RuleKeepsInv(db, approvalId, status);
    case _ =>
      if m.i < |db.workers| {
        WorkerStepKeepsInv(db, m);
      }
  }

  lemma WorkerStepKeepsInv(db: Database, m: Move)
    requires Inv(db) && !m.Arrive? && !m.Ask? && !m.Rule? && m.i < |db.workers|
    ensures Inv(WorkerStep(db, m))
  {
    WorkerStepKeepsRows(db, m);
    WorkerStepKeepsLocks(db, m);
    WorkerStepKeepsWorkers(db, m);
    WorkerStepKeepsCalls(db, m);
  }

  lemma {:induction false} RunKeepsInv(db: Database, moves: seq<Move>)
    requires Initial(db)
    ensures Inv(Run(db, moves))
  {
    if moves != [] {
      RunKeepsInv(db, moves[..|moves| - 1]);
      StepKeepsInv(Run(db, moves[..|moves| - 1]), moves[|moves| - 1]);
    }
  }

  // ----- results -----

  /** The call's worker rolled back after the supplier had been called. */
  ghost predicate WasLost(db: Database, call: SupplierCall) {
    call.worker < |db.workers| && db.workers[call.worker].phase.Lost?
  }

  ghost predicate SameOrder(a: SupplierCall, b: SupplierCall) {
    a.proposalId == b.proposalId || a.approvalId == b.approvalId
  }

  /** Once there is a second call for a proposal or under an approval, the first one was lost. */
  ghost predicate EarlierCallsLost(calls: seq<SupplierCall>, workers: seq<Worker>) {
    forall a, b :: 0 <= a < b < |calls| && SameOrder(calls[a], calls[b]) ==>
      calls[a].worker < |workers| && workers[calls[a].worker].phase.Lost?
  }

  /** A worker that is about to call holds its row, so a worker that called before for the same
      order cannot hold its own any more. */
  lemma EarlierCallIsLost(db: Database, i: nat, c: SupplierCall)
    requires Inv(db) && i < |db.workers| && db.workers[i].phase.Flushed? && c in db.calls
    requires c.proposalId == db.workers[i].phase.row.proposalId || c.approvalId == db.workers[i].phase.row.approvalId
    ensures c.worker < |db.workers| && db.workers[c.worker].phase.Lost?
  {
    var p, q := db.workers[c.worker], db.workers[i];
    assert WorkerInv(p, db.approvals, db.orders) && WorkerInv(q, db.approvals, db.orders);
    assert p.phase.row.proposalId == q.phase.row.proposalId;
    assert Conflict(p.phase.row, q.phase.row) && Conflict(q.phase.row, p.phase.row);
  }

  lemma PlaceKeepsLost(db: Database, i: nat, reply: PlaceReply)
    requires Inv(db) && i < |db.workers| && EarlierCallsLost(db.calls, db.workers)
    ensures var after := WorkerStep(db, Place(i, reply)); EarlierCallsLost(after.calls, after.workers)
  {
    var after := WorkerStep(db, Place(i, reply));
    if after != db {
      forall a | 0 <= a < |db.calls| && SameOrder(db.calls[a], after.calls[|db.calls|])
        ensures db.calls[a].worker < |db.workers| && db.workers[db.calls[a].worker].phase.Lost?
      {
        EarlierCallIsLost(db, i, db.calls[a]);
      }
    }
  }

  /** A lost worker stays lost. */
  lemma StepKeepsLost(db: Database, m: Move)
    requires Inv(db) && EarlierCallsLost(db.calls, db.workers)
    ensures EarlierCallsLost(Step(db, m).calls, Step(db, m).workers)
  {
    if m.Place? && m.i < |db.workers| {
      PlaceKeepsLost(db, m.i, m.reply);
    } else {
      StepLeavesLost(db, m);
    }
  }

  lemma StepLeavesLost(db: Database, m: Move)
    requires m.Place? ==> m.i >= |db.workers|
    ensures Step(db, m).calls == db.calls && |db.workers| <= |Step(db, m).workers|
    ensures forall j :: 0 <= j < |db.workers| && db.workers[j].phase.Lost? ==> Step(db, m).workers[j].phase.Lost?
  {
  }

  lemma {:induction false} RunKeepsLost(db: Database, moves: seq<Move>)
    requires Initial(db)
    ensures EarlierCallsLost(Run(db, moves).calls, Run(db, moves).workers)
  {
    if moves != [] {
      RunKeepsLost(db, moves[..|moves| - 1]);
      RunKeepsInv(db, moves[..|moves| - 1]);
      StepKeepsLost(Run(db, moves[..|moves| - 1]), moves[|moves| - 1]);
    }
  }

  /** Of two supplier calls for one proposal, or under one approval, the earlier one's worker rolled
      back after it. So an order whose call was committed, or may still be, is never called again. */
  lemma {:induction false} OneCallPerProposal(db: Database, moves: seq<Move>, a: nat, b: nat)
    requires Initial(db) && a < b < |Run(db, moves).calls|
    requires Run(db, moves).calls[a].proposalId == Run(db, moves).calls[b].proposalId
          || Run(db, moves).calls[a].approvalId == Run(db, moves).calls[b].approvalId
    ensures WasLost(Run(db, moves), Run(db, moves).calls[a])
  {
    RunKeepsLost(db, moves);
  }

  /** Every call was made while its approval stood approved, by a worker then holding its row. */
  lemma {:induction false} CallsAreApproved(db: Database, moves: seq<Move>)
    requires Initial(db)
    ensures forall c :: c in Run(db, moves).calls ==> c.status == ApprovalStatus.Approved
  {
    RunKeepsInv(db, moves);
  }

  /** No two orders share a proposal, a hash or a merchant's key, and a replay returns the
      committed order under the caller's own key. */
  lemma {:induction false} OrdersStayUnique(db: Database, moves: seq<Move>)
    requires Initial(db)
    ensures var after := Run(db, moves);
      && (forall a, b :: 0 <= a < b < |after.orders| ==> !Conflict(after.orders[a], after.orders[b]))
      && (forall w :: w in after.workers && w.phase.Replayed? ==>
            w.phase.row in after.orders && w.phase.row.merchantId == w.request.merchantId
            && w.phase.row.key == w.request.key)
  {
    RunKeepsInv(db, moves);
  }

  // ----- what a lost call costs -----

  lemma RunOneMore(db: Database, moves: seq<Move>, m: Move)
    ensures Run(db, moves + [m]) == Step(Run(db, moves), m)
  {
    assert (moves + [m])[..|moves|] == moves;
  }

  /** Nothing stands in the way of worker i: a granted approval that passes the guards, nobody
      else under way, and no order that would conflict. */
  ghost predicate Uncontended(db: Database, i: nat, now: Instant) {
    && i < |db.workers| && db.workers[i].phase.Arrived?
    && (forall j :: 0 <= j < |db.workers| ==> !db.workers[j].HoldsLock() && !db.workers[j].HoldsRow())
    && db.workers[i].request.approvalId in db.approvals
    && PassesGuards(db, db.workers[i].request, now)
    && (forall row :: row in db.orders ==>
          !Conflict(row, NewRow(db.workers[i].request, db.approvals[db.workers[i].request.approvalId])))
  }

  function Solo(i: nat, now: Instant): seq<Move> {
    [Look(i), Lock(i), Check(i, now), Insert(i), Place(i, PlaceRaised)]
  }

  /** The database is as before but for worker i, now in the given phase. */
  ghost predicate OnlyMoves(before: Database, after: Database, i: nat, phase: Phase) {
    i < |before.workers| && after == Set(before, i, phase)
  }

  lemma SoloLocks(db: Database, i: nat, now: Instant)
    requires Uncontended(db, i, now)
    ensures OnlyMoves(db, Step(Step(db, Look(i)), Lock(i)), i, Locked)
  {
    var request := db.workers[i].request;
    var row := NewRow(request, db.approvals[request.approvalId]);
    var found := ByKey(db.orders, request.merchantId, request.key);
    assert found.Some? ==> Conflict(found.value, row);
    assert OnlyMoves(db, Step(db, Look(i)), i, KeyIsFree);
  }

  lemma SoloFlushes(db: Database, locked: Database, i: nat, now: Instant)
    requires Uncontended(db, i, now) && OnlyMoves(db, locked, i, Locked)
    ensures OnlyMoves(db, Step(Step(locked, Check(i, now)), Insert(i)), i,
                      Flushed(NewRow(db.workers[i].request, db.approvals[db.workers[i].request.approvalId])))
  {
    assert OnlyMoves(db, Step(locked, Check(i, now)), i, Guarded);
  }

  lemma RunTwoMore(db: Database, moves: seq<Move>, a: Move, b: Move)
    ensures Run(db, moves + [a, b]) == Step(Step(Run(db, moves), a), b)
  {
    var one := moves + [a];
    assert moves + [a, b] == one + [b];
    RunOneMore(db, moves, a);
    RunOneMore(db, one, b);
  }

  lemma RunSolo(db: Database, moves: seq<Move>, i: nat, now: Instant)
    ensures Run(db, moves + Solo(i, now))
         == Step(Step(Step(Step(Step(Run(db, moves), Look(i)), Lock(i)), Check(i, now)), Insert(i)),
                 Place(i, PlaceRaised))
  {
    RunTwoMore(db, moves, Look(i), Lock(i));
    RunTwoMore(db, moves + [Look(i), Lock(i)], Check(i, now), Insert(i));
    var four := moves + [Look(i), Lock(i)] + [Check(i, now), Insert(i)];
    RunOneMore(db, four, Place(i, PlaceRaised));
    assert moves + Solo(i, now) == four + [Place(i, PlaceRaised)];
  }

  /** An execution that nothing stands in the way of reaches the supplier. */
  lemma {:induction false} UncontendedExecutionCalls(db: Database, moves: seq<Move>, i: nat, now: Instant)
    requires Uncontended(Run(db, moves), i, now)
    ensures var before, after := Run(db, moves), Run(db, moves + Solo(i, now));
      var request := before.workers[i].request;
      var row := NewRow(request, before.approvals[request.approvalId]);
      && after.calls == before.calls + [SupplierCall(i, row.proposalId, request.approvalId, ApprovalStatus.Approved)]
      && OnlyMoves(before, after.(calls := before.calls), i, Called(row.(status := OrderFailed)))
  {
    var before := Run(db, moves);
    SoloLocks(before, i, now);
    SoloFlushes(before, Step(Step(before, Look(i)), Lock(i)), i, now);
    RunSolo(db, moves, i, now);
  }

  /** The proviso is needed: a worker that rolls back after its call leaves no trace in the
      database, and a second execution of the same approval calls the supplier again. */
  lemma {:induction false} LostCallAllowsAnother(db: Database, moves: seq<Move>, i: nat, j: nat, now: Instant)
    requires Uncontended(Run(db, moves), i, now) && Uncontended(Run(db, moves), j, now) && i != j
    requires Run(db, moves).workers[i].request.approvalId == Run(db, moves).workers[j].request.approvalId
    ensures var before, after := Run(db, moves), Run(db, moves + Solo(i, now) + [Lose(i)] + Solo(j, now));
      && |after.calls| == |before.calls| + 2
      && after.calls[|before.calls|].approvalId == after.calls[|before.calls| + 1].approvalId
      && after.calls[|before.calls|].proposalId == after.calls[|before.calls| + 1].proposalId
  {
    UncontendedExecutionCalls(db, moves, i, now);
    RunOneMore(db, moves + Solo(i, now), Lose(i));
    UncontendedExecutionCalls(db, moves + Solo(i, now) + [Lose(i)], j, now);
  }

  // Such a run from the start: one approval, asked for and granted, and two executions under it.
  const PROPOSAL := PurchaseProposal(ProposalId("r", 1), 0, 0, 7, "SALT", 1000, "kg", 2, 0, "q")
  const GRANTED := NewRecord(PROPOSAL, 0, 0, 1).(status := ApprovalStatus.Approved)
  const FIRST := Request(0, 0, "first", Signed(ClaimsOf(GRANTED)))
  const SECOND := FIRST.(key := "second")
  const EMPTY := Database(map[0 := 2], map[], [], [], [])
  const READY := Database(map[0 := 2], map[0 := ApprovalRow(GRANTED, PROPOSAL)], [],
                          [Worker(FIRST, Arrived), Worker(SECOND, Arrived)], [])

  function Setup(): seq<Move> {
    [Ask(0, PROPOSAL, 0, 1), Rule(0, ApprovalStatus.Approved), Arrive(FIRST), Arrive(SECOND)]
  }

  lemma SetupIsReady()
    ensures Run(EMPTY, Setup()) == READY
  {
    var s := Setup();
    RunTwoMore(EMPTY, [], s[0], s[1]);
    RunTwoMore(EMPTY, [s[0], s[1]], s[2], s[3]);
    assert [] + [s[0], s[1]] == [s[0], s[1]] && [s[0], s[1]] + [s[2], s[3]] == s;
  }

  lemma ReadyIsUncontended(i: nat)
    requires i < 2
    ensures Uncontended(READY, i, 0)
  {
    assert PROPOSAL.TotalAmount() == 2000;
  }

  lemma OneApprovalTwoCalls()
    ensures exists db, moves ::
      Initial(db) && |Run(db, moves).calls| == 2
      && Run(db, moves).calls[0].approvalId == Run(db, moves).calls[1].approvalId
  {
    SetupIsReady();
    ReadyIsUncontended(0);
    ReadyIsUncontended(1);
    LostCallAllowsAnother(EMPTY, Setup(), 0, 1, 0);
    assert Initial(EMPTY);
  }
}
