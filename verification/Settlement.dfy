/** Orders, their transactions and the supplier catalogue: execution, the supplier's decision and
    catalogue upserts, each one database transaction that commits or leaves nothing behind. */
module Settlement {
  import opened Money
  import opened Entities
  import opened Approvals
  import opened Text
  import opened OrderExecution

  datatype OrderItem = OrderItem(sku: string, quantity: Milli, unitPrice: Paise)

  /** Amounts are exact, in thousandths of a paisa; row holds the unique columns and the status. */
  datatype Order = Order(row: OrderRow, supplierId: SupplierId, total: nat, items: seq<OrderItem>,
                         reference: Option<string>)

  datatype TransactionStatus = TxPending | TxSucceeded | TxFailed

  datatype Transaction = Transaction(amount: nat, status: TransactionStatus, reference: Option<string>)

  type OrderId = nat  // position in orders

  datatype CatalogKey = CatalogKey(supplierId: SupplierId, sku: string)

  datatype StockEvent =
    | Upserted(key: CatalogKey, quantity: nat)
    | Reserved(orderId: OrderId, supplierId: SupplierId, items: seq<OrderItem>)

  datatype Books = Books(
    limits: map<MerchantId, nat>,
    approvals: map<ApprovalId, ApprovalRow>,
    orders: seq<Order>,
    transactions: map<OrderId, Transaction>,
    catalog: map<CatalogKey, int>,
    history: seq<StockEvent>)  // the committed stock changes, oldest first

  datatype Refusal = NotFound | Conflict | Unauthorized

  datatype Result = Done(orderId: OrderId) | Refused(refusal: Refusal)

  // ----- execution -----

  function IndexByKey(orders: seq<Order>, merchantId: MerchantId, key: string): (found: Option<OrderId>)
    ensures found.Some? ==>
      found.value < |orders| && orders[found.value].row.merchantId == merchantId && orders[found.value].row.key == key
    ensures found.None? ==> forall o :: o in orders ==> o.row.merchantId != merchantId || o.row.key != key
  {
    if orders == [] then None
    else
      var last := |orders| - 1;
      if orders[last].row.merchantId == merchantId && orders[last].row.key == key then Some(last)
      else IndexByKey(orders[..last], merchantId, key)
  }

  predicate Taken(orders: seq<Order>, row: OrderRow) {
    exists o :: o in orders && OrderExecution.Conflict(o.row, row)
  }

  function AsDatabase(b: Books): Database { Database(b.limits, b.approvals, [], [], []) }

  /** Whether this execution gets as far as calling the supplier. */
  predicate Executes(b: Books, request: Request, now: Instant) {
    && IndexByKey(b.orders, request.merchantId, request.key).None?
    && request.approvalId in b.approvals
    && PassesGuards(AsDatabase(b), request, now)
    && !Taken(b.orders, NewRow(request, b.approvals[request.approvalId]))
  }

  function NewOrder(b: Books, request: Request, reply: PlaceReply): Order
    requires request.approvalId in b.approvals
  {
    var proposal := b.approvals[request.approvalId].payload;
    var row := NewRow(request, b.approvals[request.approvalId]).(status := StatusAfter(reply));
    Order(row, proposal.supplierId, proposal.TotalAmount(),
          [OrderItem(proposal.sku, proposal.quantity, proposal.unitPrice)],
          if reply.Placed? then reply.result.confirmation else None)
  }

  /** Any answer but a pending one settles the transaction. */
  function NewTransaction(order: Order, reply: PlaceReply): Transaction {
    if reply.PlaceRaised? then Transaction(order.total, TxFailed, None)
    else if reply.result.status == ApprovalPending then Transaction(order.total, TxPending, None)
    else Transaction(order.total, TxSucceeded, reply.result.confirmation)
  }

  function ExecuteIn(b: Books, request: Request, now: Instant, reply: PlaceReply): Books {
    if !Executes(b, request, now) then b
    else
      var order := NewOrder(b, request, reply);
      b.(orders := b.orders + [order], transactions := b.transactions[|b.orders| := NewTransaction(order, reply)])
  }

  // ----- the supplier's decision -----

  function KeyOf(supplierId: SupplierId, item: OrderItem): CatalogKey { CatalogKey(supplierId, Upper(item.sku)) }

  /** Takes the items out of stock one by one; None if one of them is not there in full. */
  function Reserve(catalog: map<CatalogKey, int>, supplierId: SupplierId,
                   items: seq<OrderItem>): Option<map<CatalogKey, int>> {
    if items == [] then Some(catalog)
    else
      var key := KeyOf(supplierId, items[0]);
      if key !in catalog || catalog[key] < items[0].quantity then None
      else Reserve(catalog[key := catalog[key] - items[0].quantity], supplierId, items[1..])
  }

  predicate IsOwn(b: Books, supplierId: SupplierId, orderId: OrderId) {
    orderId < |b.orders| && b.orders[orderId].supplierId == supplierId
  }

  /** Whether this decision changes anything. */
  predicate Decides(b: Books, supplierId: SupplierId, orderId: OrderId, approved: bool) {
    && IsOwn(b, supplierId, orderId)
    && b.orders[orderId].row.status == ApprovalPending
    && (approved ==> Reserve(b.catalog, supplierId, b.orders[orderId].items).Some?)
  }

  function Reference(order: Order, orderId: OrderId, fallback: string): Option<string> {
    if order.reference.Some? && order.reference.value != "" then order.reference else Some(fallback)
  }

  function DecidedOrder(order: Order, orderId: OrderId, approved: bool, fallback: string): Order {
    if approved then order.(row := order.row.(status := Confirmed), reference := Reference(order, orderId, fallback))
    else order.(row := order.row.(status := OrderCancelled))
  }

  function DecidedTransaction(t: Transaction, order: Order, approved: bool): Transaction {
    t.(status := if approved then TxSucceeded else TxFailed, reference := if approved then order.reference else None)
  }

  /** fallback is the purchase-order number made from the order's own id. */
  function SettleIn(b: Books, supplierId: SupplierId, orderId: OrderId, approved: bool, fallback: string): Books {
    if !Decides(b, supplierId, orderId, approved) then b
    else
      var order := DecidedOrder(b.orders[orderId], orderId, approved, fallback);
      b.(orders := b.orders[orderId := order],
         transactions := if orderId in b.transactions
                         then b.transactions[orderId := DecidedTransaction(b.transactions[orderId], order, approved)]
                         else b.transactions,
         catalog := if approved then Reserve(b.catalog, supplierId, order.items).value else b.catalog,
         history := if approved then b.history + [Reserved(orderId, supplierId, order.items)] else b.history)
  }

  function UpsertIn(b: Books, supplierId: SupplierId, sku: string, quantity: nat): Books {
    var key := CatalogKey(supplierId, Upper(Strip(sku)));
    b.(catalog := b.catalog[key := quantity], history := b.history + [Upserted(key, quantity)])
  }

  class OrderBooks {
    var limits: map<MerchantId, nat>
    var approvals: map<ApprovalId, ApprovalRow>
    var orders: seq<Order>
    var transactions: map<OrderId, Transaction>
    var catalog: map<CatalogKey, int>
    ghost var history: seq<StockEvent>

    ghost function View(): Books
      reads this
    {
      Books(limits, approvals, orders, transactions, catalog, history)
    }

    constructor (limits: map<MerchantId, nat>, approvals: map<ApprovalId, ApprovalRow>)
      ensures View() == Books(limits, approvals, [], map[], map[], [])
    {
      this.limits, this.approvals := limits, approvals;
      orders, transactions, catalog, history := [], map[], map[], [];
    }

    /** OrderService.execute as one serial transaction; reply is what place_order would answer. */
    method Execute(request: Request, now: Instant, reply: PlaceReply) returns (result: Result)
      modifies this`orders, this`transactions
      ensures View() == ExecuteIn(old(View()), request, now, reply)
      ensures result.Done? ==>
        && result.orderId < |orders|
        && orders[result.orderId].row.merchantId == request.merchantId
        && orders[result.orderId].row.key == request.key
      ensures result.Refused? ==>
                IndexByKey(old(orders), request.merchantId, request.key).None? && !Executes(old(View()), request, now)
    {
      var existing := IndexByKey(orders, request.merchantId, request.key);
      if existing.Some? {
        return Done(existing.value);
      }
      if request.approvalId !in approvals {
        return Refused(NotFound);
      }
      if !PassesGuards(Database(limits, approvals, [], [], []), request, now) {
        return Refused(Unauthorized);
      }
      var approval := approvals[request.approvalId];
      var proposal := approval.payload;
      var row := NewRow(request, approval);
      if Taken(orders, row) {
        return Refused(Conflict);
      }
      var order := Order(row, proposal.supplierId, proposal.TotalAmount(),
                         [OrderItem(proposal.sku, proposal.quantity, proposal.unitPrice)], None);
      var transaction := Transaction(proposal.TotalAmount(), TxPending, None);
      if reply.PlaceRaised? {
        order := order.(row := order.row.(status := OrderFailed));
        transaction := transaction.(status := TxFailed);
      } else {
        order := order.(row := order.row.(status := reply.result.status), reference := reply.result.confirmation);
        if reply.result.status != ApprovalPending {
          transaction := transaction.(status := TxSucceeded, reference := reply.result.confirmation);
        }
      }
      transactions := transactions[|orders| := transaction];
      orders := orders + [order];
      result := Done(|orders| - 1);
    }

    method DecideSupplierOrder(supplierId: SupplierId, orderId: OrderId, approved: bool,
                               fallback: string) returns (result: Result)
      modifies this`orders, this`transactions, this`catalog, this`history
      ensures View() == SettleIn(old(View()), supplierId, orderId, approved, fallback)
      ensures result.Done? <==>
        || Decides(old(View()), supplierId, orderId, approved)
        || (IsOwn(old(View()), supplierId, orderId)
            && old(orders[orderId].row.status) == (if approved then Confirmed else OrderCancelled))
    {
      if orderId >= |orders| || orders[orderId].supplierId != supplierId {
        return Refused(NotFound);
      }
      var order := orders[orderId];
      if order.row.status != ApprovalPending {
        if (approved && order.row.status == Confirmed) || (!approved && order.row.status == OrderCancelled) {
          return Done(orderId);
        }
        return Refused(Conflict);
      }
      var transactionStatus := TxFailed;
      if approved {
        // the session's view of the stock; dropped if a line fails
        var stock := catalog;
        for i := 0 to |order.items|
          invariant Reserve(catalog, supplierId, order.items) == Reserve(stock, supplierId, order.items[i..])
        {
          var item := order.items[i];
          var key := KeyOf(supplierId, item);
          assert order.items[i..][0] == item && order.items[i..][1..] == order.items[i + 1..];
          if key !in stock || stock[key] < item.quantity {
            return Refused(Conflict);
          }
          stock := stock[key := stock[key] - item.quantity];
        }
        order := order.(row := order.row.(status := Confirmed), reference := Reference(order, orderId, fallback));
        transactionStatus := TxSucceeded;
        catalog := stock;
        history := history + [Reserved(orderId, supplierId, order.items)];
      } else {
        order := order.(row := order.row.(status := OrderCancelled));
      }
      if orderId in transactions {
        transactions := transactions[orderId := transactions[orderId].(
          status := transactionStatus, reference := if approved then order.reference else None)];
      }
      orders := orders[orderId := order];
      result := Done(orderId);
    }

    method UpsertSupplierProduct(supplierId: SupplierId, sku: string, quantity: nat)
      modifies this`catalog, this`history
      ensures View() == UpsertIn(old(View()), supplierId, sku, quantity)
    {
      var key := CatalogKey(supplierId, Upper(Strip(sku)));
      catalog := catalog[key := quantity];
      history := history + [Upserted(key, quantity)];
    }
  }

  // ----- runs -----

  datatype Event =
    | Execution(request: Request, now: Instant, reply: PlaceReply)
    | Decision(supplierId: SupplierId, orderId: OrderId, approved: bool, fallback: string)
    | Upsert(supplier: SupplierId, sku: string, quantity: nat)
    | Granting(approvals: map<ApprovalId, ApprovalRow>)  // approvals come and go outside the books

  function Step(b: Books, e: Event): Books {
    match e
    case Execution(request, now, reply) => ExecuteIn(b, request, now, reply)
    case Decision(supplierId, orderId, approved, fallback) => SettleIn(b, supplierId, orderId, approved, fallback)
    case Upsert(supplierId, sku, quantity) => UpsertIn(b, supplierId, sku, quantity)
    case Granting(approvals) => b.(approvals := approvals)
  }

  function Run(b: Books, events: seq<Event>): Books {
    if events == [] then b else Step(Run(b, events[..|events| - 1]), events[|events| - 1])
  }

  // ----- stock -----

  function Demand(items: seq<OrderItem>, sku: string): nat {
    if items == [] then 0
    else (if Upper(items[0].sku) == sku then items[0].quantity else 0) + Demand(items[1..], sku)
  }

  /** Every listed item is in the catalogue with enough for all lines of the same SKU together. */
  ghost predicate InStock(catalog: map<CatalogKey, int>, supplierId: SupplierId, items: seq<OrderItem>) {
    forall item :: item in items ==>
      KeyOf(supplierId, item) in catalog && Demand(items, Upper(item.sku)) <= catalog[KeyOf(supplierId, item)]
  }

  lemma {:induction false} NoLineNoDemand(items: seq<OrderItem>, sku: string)
    requires forall item :: item in items ==> Upper(item.sku) != sku
    ensures Demand(items, sku) == 0
  {
    if items != [] {
      assert forall item :: item in items[1..] ==> item in items;
      NoLineNoDemand(items[1..], sku);
    }
  }

  /** Taking the first line out of the stock leaves the rest exactly as coverable as before. */
  lemma FirstLineTaken(catalog: map<CatalogKey, int>, supplierId: SupplierId, items: seq<OrderItem>)
    requires items != [] && KeyOf(supplierId, items[0]) in catalog
    requires catalog[KeyOf(supplierId, items[0])] >= items[0].quantity
    ensures var first := KeyOf(supplierId, items[0]);
      InStock(catalog[first := catalog[first] - items[0].quantity], supplierId, items[1..]) <==>
        InStock(catalog, supplierId, items)
  {
    var first, rest := KeyOf(supplierId, items[0]), items[1..];
    var next := catalog[first := catalog[first] - items[0].quantity];
    assert items == [items[0]] + rest;
    if InStock(next, supplierId, rest) {
      if twin :| twin in rest && Upper(twin.sku) == first.sku {
        assert Demand(rest, Upper(twin.sku)) <= next[KeyOf(supplierId, twin)];
      } else {
        NoLineNoDemand(rest, first.sku);
      }
      forall item | item in items
        ensures KeyOf(supplierId, item) in catalog && Demand(items, Upper(item.sku)) <= catalog[KeyOf(supplierId, item)]
      {
        assert item in rest ==> Demand(rest, Upper(item.sku)) <= next[KeyOf(supplierId, item)];
      }
    }
    if InStock(catalog, supplierId, items) {
      forall item | item in rest
        ensures KeyOf(supplierId, item) in next && Demand(rest, Upper(item.sku)) <= next[KeyOf(supplierId, item)]
      {
        assert item in items;
      }
    }
  }

  lemma {:induction false} ReserveExactly(catalog: map<CatalogKey, int>, supplierId: SupplierId, items: seq<OrderItem>)
    ensures Reserve(catalog, supplierId, items).Some? <==> InStock(catalog, supplierId, items)
  {
    if items != [] {
      var first := KeyOf(supplierId, items[0]);
      assert items[0] in items;
      if first in catalog && catalog[first] >= items[0].quantity {
        ReserveExactly(catalog[first := catalog[first] - items[0].quantity], supplierId, items[1..]);
        FirstLineTaken(catalog, supplierId, items);
      } else {
        assert Demand(items, first.sku) >= items[0].quantity;
      }
    }
  }

  lemma {:induction false} ReservedIsTheDemand(catalog: map<CatalogKey, int>, supplierId: SupplierId,
                                               items: seq<OrderItem>, key: CatalogKey)
    requires Reserve(catalog, supplierId, items).Some?
    ensures var after := Reserve(catalog, supplierId, items).value;
      && (key in after <==> key in catalog)
      && (key in catalog ==>
            after[key] == catalog[key] - (if key.supplierId == supplierId then Demand(items, key.sku) else 0))
  {
    if items != [] {
      var first := KeyOf(supplierId, items[0]);
      ReservedIsTheDemand(catalog[first := catalog[first] - items[0].quantity], supplierId, items[1..], key);
    }
  }

  /** Reserving line by line succeeds exactly when the stock covers each SKU's total over all its
      lines, and takes exactly that total. */
  lemma {:induction false} ReserveTakesTheDemand(catalog: map<CatalogKey, int>, supplierId: SupplierId,
                                                 items: seq<OrderItem>)
    ensures Reserve(catalog, supplierId, items).Some? <==> InStock(catalog, supplierId, items)
    ensures Reserve(catalog, supplierId, items).Some? ==>
      var after := Reserve(catalog, supplierId, items).value;
      && after.Keys == catalog.Keys
      && forall key :: key in catalog ==>
           after[key] == catalog[key] - (if key.supplierId == supplierId then Demand(items, key.sku) else 0)
  {
    ReserveExactly(catalog, supplierId, items);
    if Reserve(catalog, supplierId, items).Some? {
      forall key {
        ReservedIsTheDemand(catalog, supplierId, items, key);
      }
    }
  }

  /** The stock the committed changes account for: the last upserted quantity less everything
      reserved since; None before the first upsert. */
  function StockOf(history: seq<StockEvent>, key: CatalogKey): Option<int> {
    if history == [] then None
    else
      var before := StockOf(history[..|history| - 1], key);
      match history[|history| - 1]
      case Upserted(k, quantity) => if k == key then Some(quantity) else before
      case Reserved(_, supplierId, items) =>
        if supplierId == key.supplierId && before.Some? then Some(before.value - Demand(items, key.sku)) else before
  }

  /** Reservations are for distinct orders, each of them now confirmed, at their own supplier. */
  ghost predicate ReservationsInv(history: seq<StockEvent>, orders: seq<Order>) {
    && (forall e :: e in history && e.Reserved? ==>
          && e.orderId < |orders| && orders[e.orderId].row.status == Confirmed
          && orders[e.orderId].items == e.items && orders[e.orderId].supplierId == e.supplierId)
    && (forall i, j :: 0 <= i < j < |history| && history[i].Reserved? && history[j].Reserved?
          ==> history[i].orderId != history[j].orderId)
  }

  ghost predicate StockInv(catalog: map<CatalogKey, int>, history: seq<StockEvent>) {
    forall key ::
      && (key in catalog <==> StockOf(history, key).Some?)
      && (key in catalog ==> 0 <= catalog[key] == StockOf(history, key).value)
  }

  lemma UpsertKeepsStock(b: Books, supplierId: SupplierId, sku: string, quantity: nat)
    requires StockInv(b.catalog, b.history)
    ensures StockInv(UpsertIn(b, supplierId, sku, quantity).catalog, UpsertIn(b, supplierId, sku, quantity).history)
  {
    var after := UpsertIn(b, supplierId, sku, quantity);
    assert after.history[..|after.history| - 1] == b.history;
  }

  lemma {:induction false} DemandIsWithinStock(catalog: map<CatalogKey, int>, supplierId: SupplierId,
                                               items: seq<OrderItem>, key: CatalogKey)
    requires InStock(catalog, supplierId, items) && key in catalog && key.supplierId == supplierId && catalog[key] >= 0
    ensures Demand(items, key.sku) <= catalog[key]
  {
    if item :| item in items && Upper(item.sku) == key.sku {
      assert KeyOf(supplierId, item) == key;
    } else {
      NoLineNoDemand(items, key.sku);
    }
  }

  lemma DecisionKeepsStock(b: Books, supplierId: SupplierId, orderId: OrderId, approved: bool, fallback: string)
    requires StockInv(b.catalog, b.history)
    ensures var after := SettleIn(b, supplierId, orderId, approved, fallback); StockInv(after.catalog, after.history)
  {
    var after := SettleIn(b, supplierId, orderId, approved, fallback);
    if after.history != b.history {
      var items := b.orders[orderId].items;
      assert after.history == b.history + [Reserved(orderId, supplierId, items)];
      assert after.history[..|after.history| - 1] == b.history;
      ReserveTakesTheDemand(b.catalog, supplierId, items);
      forall key | key in b.catalog && key.supplierId == supplierId
        ensures Demand(items, key.sku) <= b.catalog[key]
      {
        DemandIsWithinStock(b.catalog, supplierId, items, key);
      }
    }
  }

  /** Over any run from an empty catalogue, with whatever orders are there already, stock never goes
      negative and is the last upserted quantity less what was reserved since; each reservation is
      for one confirmed order's items. */
  lemma {:induction false} StockIsAccountedFor(b: Books, events: seq<Event>)
    requires b.catalog == map[] && b.history == []
    ensures StockInv(Run(b, events).catalog, Run(b, events).history)
    ensures ReservationsInv(Run(b, events).history, Run(b, events).orders)
  {
    if events != [] {
      var before, e := Run(b, events[..|events| - 1]), events[|events| - 1];
      StockIsAccountedFor(b, events[..|events| - 1]);
      match e
      case Decision(supplierId, orderId, approved, fallback) =>
        DecisionKeepsStock(before, supplierId, orderId, approved, fallback);
      case Upsert(supplierId, sku, quantity) => UpsertKeepsStock(before, supplierId, sku, quantity);
      case _ =>
    }
  }

  lemma StepReservesWhatItConfirms(b: Books, e: Event, id: OrderId)
    requires id < |b.orders|
    ensures var order, after := b.orders[id], Step(b, e);
      && b.history <= after.history && id < |after.orders|
      && after.orders[id].supplierId == order.supplierId && after.orders[id].items == order.items
      && (order.row.status == ApprovalPending && after.orders[id].row.status == Confirmed ==>
            after.history == b.history + [Reserved(id, order.supplierId, order.items)])
      && (order.row.status != ApprovalPending ==> after.orders[id] == order)
  {
  }

  /** The converse: an order that waits for its supplier at any point of a run, and is confirmed
      later, has had its own items reserved at its own supplier in between. */
  lemma {:induction false} ConfirmedOrdersAreReserved(b: Books, events: seq<Event>, id: OrderId)
    requires id < |b.orders| && b.orders[id].row.status == ApprovalPending
    ensures var order, after := b.orders[id], Run(b, events);
      && b.history <= after.history && id < |after.orders|
      && after.orders[id].supplierId == order.supplierId && after.orders[id].items == order.items
      && (after.orders[id].row.status == Confirmed ==>
            Reserved(id, order.supplierId, order.items) in after.history[|b.history|..])
  {
    if events != [] {
      ConfirmedOrdersAreReserved(b, events[..|events| - 1], id);
      var before, after := Run(b, events[..|events| - 1]), Run(b, events);
      StepReservesWhatItConfirms(before, events[|events| - 1], id);
      assert forall e :: e in before.history[|b.history|..] ==> e in after.history[|b.history|..] by {
        assert before.history[|b.history|..] <= after.history[|b.history|..];
      }
      if before.orders[id].row.status == ApprovalPending && after.orders[id].row.status == Confirmed {
        assert after.history[|after.history| - 1] == Reserved(id, b.orders[id].supplierId, b.orders[id].items);
      }
    }
  }

  // ----- coherence -----

  function ItemTotal(items: seq<OrderItem>): nat {
    if items == [] then 0 else items[0].quantity * items[0].unitPrice + ItemTotal(items[1..])
  }

  ghost predicate Pairs(order: OrderStatus, transaction: TransactionStatus) {
    || (order == ApprovalPending && transaction == TxPending)
    || (order == Confirmed && transaction == TxSucceeded)
    || (order == OrderFailed && transaction == TxFailed)
    || (order == OrderCancelled && transaction == TxFailed)
  }

  ghost predicate CoherentAt(b: Books, id: OrderId)
    requires id < |b.orders|
  {
    && id in b.transactions
    && Pairs(b.orders[id].row.status, b.transactions[id].status)
    && b.transactions[id].amount == b.orders[id].total == ItemTotal(b.orders[id].items)
  }

  ghost predicate Coherent(b: Books) {
    forall id :: 0 <= id < |b.orders| ==> CoherentAt(b, id)
  }

  /** What the two wired adapters can answer. */
  predicate Wired(reply: PlaceReply) {
    reply.PlaceRaised? || reply.result.status == Confirmed || reply.result.status == ApprovalPending
  }

  /** An execution that creates an order keeps the books coherent exactly when the adapter's answer
      is an exception, a confirmation or a pending order: any other status is settled as a success. */
  lemma ExecutionIsCoherentExactly(b: Books, request: Request, now: Instant, reply: PlaceReply)
    requires Coherent(b) && Executes(b, request, now)
    ensures Coherent(ExecuteIn(b, request, now, reply)) <==> Wired(reply)
  {
    var after := ExecuteIn(b, request, now, reply);
    var id := |b.orders|;
    var proposal := b.approvals[request.approvalId].payload;
    assert after.orders[id].items[1..] == [];
    assert ItemTotal(after.orders[id].items) == proposal.quantity * proposal.unitPrice;
    assert CoherentAt(after, id) <==> Wired(reply);
    forall other | 0 <= other < id
      ensures CoherentAt(after, other)
    {
      assert CoherentAt(b, other);
    }
  }

  /** From coherent books an adapter that answers with a failed order leaves a failed order whose
      transaction has succeeded. */
  lemma FailedAnswerSettlesAsSuccess()
    ensures exists b, request, now, reply ::
      && Coherent(b) && b.orders == [] && Executes(b, request, now)
      && var after := ExecuteIn(b, request, now, reply);
         after.orders[0].row.status == OrderFailed && after.transactions[0].status == TxSucceeded
  {
    var b := Books(map[0 := 2], map[0 := ApprovalRow(GRANTED, PROPOSAL)], [], map[], map[], []);
    var reply := Placed(OrderResult(0, OrderFailed, None));
    assert PROPOSAL.TotalAmount() == 2000;
    assert PassesGuards(AsDatabase(b), FIRST, 0);
    assert Executes(b, FIRST, 0);
    var after := ExecuteIn(b, FIRST, 0, reply);
    assert after.orders[0].row.status == OrderFailed && after.transactions[0].status == TxSucceeded;
  }

  lemma DecisionKeepsCoherence(b: Books, supplierId: SupplierId, orderId: OrderId, approved: bool, fallback: string)
    requires Coherent(b)
    ensures Coherent(SettleIn(b, supplierId, orderId, approved, fallback))
  {
    var after := SettleIn(b, supplierId, orderId, approved, fallback);
    forall id | 0 <= id < |after.orders|
      ensures CoherentAt(after, id)
    {
      assert CoherentAt(b, id);
    }
  }

  /** Any interleaving of executions, decisions and upserts over the wired adapters, from books that
      are coherent: statuses pair up and every transaction carries its order's total, which is its
      items' total. */
  lemma {:induction false} BooksStayCoherent(b: Books, events: seq<Event>)
    requires Coherent(b)
    requires forall e :: e in events && e.Execution? ==> Wired(e.reply)
    ensures Coherent(Run(b, events))
  {
    if events != [] {
      var earlier, e := events[..|events| - 1], events[|events| - 1];
      assert events == earlier + [e];
      BooksStayCoherent(b, earlier);
      var before := Run(b, earlier);
      match e
      case Execution(request, now, reply) =>
        if Executes(before, request, now) {
          ExecutionIsCoherentExactly(before, request, now, reply);
        }
      case Decision(supplierId, orderId, approved, fallback) =>
        DecisionKeepsCoherence(before, supplierId, orderId, approved, fallback);
      case _ =>
        forall id | 0 <= id < |before.orders|
          ensures CoherentAt(Step(before, e), id)
        {
          assert CoherentAt(before, id);
        }
    }
  }

  // ----- finality -----

  /** The order and its transaction are the same in both books. */
  ghost predicate SameAt(b: Books, after: Books, id: OrderId) {
    && id < |b.orders| && id < |after.orders| && after.orders[id] == b.orders[id]
    && (id in b.transactions <==> id in after.transactions)
    && (id in b.transactions ==> after.transactions[id] == b.transactions[id])
  }

  ghost predicate TransactionsHaveOrders(b: Books) {
    forall i :: i in b.transactions ==> i < |b.orders|
  }

  lemma StepKeepsSettled(b: Books, e: Event, id: OrderId)
    requires id < |b.orders| && b.orders[id].row.status != ApprovalPending && TransactionsHaveOrders(b)
    ensures SameAt(b, Step(b, e), id) && TransactionsHaveOrders(Step(b, e))
  {
  }

  /** Once an order is not waiting for its supplier, nothing about it ever changes again, so a
      repeated decision is a no-op and an opposite one is refused. */
  lemma {:induction false} SettledOrdersAreFinal(b: Books, events: seq<Event>, id: OrderId)
    requires id < |b.orders| && b.orders[id].row.status != ApprovalPending && TransactionsHaveOrders(b)
    ensures SameAt(b, Run(b, events), id) && TransactionsHaveOrders(Run(b, events))
  {
    if events != [] {
      SettledOrdersAreFinal(b, events[..|events| - 1], id);
      StepKeepsSettled(Run(b, events[..|events| - 1]), events[|events| - 1], id);
    }
  }

  /** A second decision changes nothing, whichever way it goes. */
  lemma SecondDecisionChangesNothing(b: Books, supplierId: SupplierId, orderId: OrderId, approved: bool, again: bool,
                                     fallback: string, fallback': string)
    requires Decides(b, supplierId, orderId, approved)
    ensures var after := SettleIn(b, supplierId, orderId, approved, fallback);
      && after.orders[orderId].row.status == (if approved then Confirmed else OrderCancelled)
      && SettleIn(after, supplierId, orderId, again, fallback') == after
  {
  }
}
