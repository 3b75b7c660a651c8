/** One merchant's products, stock ledger and confirmed receipts. */
module Inventory {
  import opened Money
  import opened Entities
  import opened Text

  type ProductId = nat  // position in the product table, which only grows

  datatype Product = Product(sku: string, name: string, unit: string, category: Option<string>, barcode: Option<string>)

  datatype Item = Item(lineId: nat, name: string, sku: string, barcode: Option<string>, category: Option<string>,
                       quantity: Milli, unit: string)

  datatype Request = Request(storeId: StoreId, key: string, items: seq<Item>)

  datatype Scope = ReceiptScan | Manual

  /** Event keys: the digest of key, line and index is taken as injective; others are given. */
  datatype EventKey = LineKey(key: string, lineId: nat, index: nat) | GivenKey(name: string)

  datatype Shelf = Shelf(storeId: StoreId, productId: ProductId)

  datatype Event = Event(shelf: Shelf, delta: int, after: int, source: Scope, key: EventKey)

  datatype Line = Line(lineId: nat, created: bool, productId: ProductId, quantity: Milli, onHand: int)

  datatype Response = Response(createdCount: nat, updatedCount: nat, lines: seq<Line>)

  /** The stored hash of the request is taken as injective: the request stands for it. */
  datatype IdempotencyRow = IdempotencyRow(request: Request, completed: bool, response: Option<Response>)

  datatype ScopedKey = ScopedKey(scope: Scope, key: string)

  datatype Refusal = KeyReused | InProgress | NotFound | Ambiguous | Mismatch | NegativeStock | DuplicateEvent

  datatype Result = Answered(response: Response) | Refused(refusal: Refusal)

  datatype State = State(
    stores: set<StoreId>,
    products: seq<Product>,
    onHand: map<Shelf, int>,
    events: seq<Event>,
    confirmations: map<ScopedKey, IdempotencyRow>)

  // ----- the ledger -----

  predicate KeyUsed(events: seq<Event>, key: EventKey) {
    exists e :: e in events && e.key == key
  }

  /** Why a stock change is refused, if it is. */
  function EventRefusal(onHand: map<Shelf, int>, events: seq<Event>, shelf: Shelf, delta: int,
                        key: EventKey): Option<Refusal> {
    if shelf !in onHand then Some(NotFound)
    else if onHand[shelf] + delta < 0 then Some(NegativeStock)
    else if KeyUsed(events, key) then Some(DuplicateEvent)
    else None
  }

  function EnsureShelf(onHand: map<Shelf, int>, shelf: Shelf): map<Shelf, int> {
    if shelf in onHand then onHand else onHand[shelf := 0]
  }

  // ----- product indexes -----

  type Index = map<string, seq<ProductId>>

  function Lookup(index: Index, key: string): seq<ProductId> {
    if key in index then index[key] else []
  }

  function AddTo(index: Index, key: string, id: ProductId): Index {
    index[key := Lookup(index, key) + [id]]
  }

  function SkuIndex(products: seq<Product>): Index {
    if products == [] then map[]
    else
      var last := |products| - 1;
      AddTo(SkuIndex(products[..last]), Fold(products[last].sku), last)
  }

  function BarcodeIndex(products: seq<Product>): Index {
    if products == [] then map[]
    else
      var last := |products| - 1;
      var earlier := BarcodeIndex(products[..last]);
      if products[last].barcode.Some? then AddTo(earlier, products[last].barcode.value, last) else earlier
  }

  function CleanOptional(value: Option<string>): Option<string> {
    if value.Some? && Strip(value.value) != "" then Some(Strip(value.value)) else None
  }

  // ----- one confirmed line -----

  datatype Work = Work(products: seq<Product>, bySku: Index, byBarcode: Index, onHand: map<Shelf, int>,
                       events: seq<Event>, lines: seq<Line>)

  function NormalSku(item: Item): string { Upper(Strip(item.sku)) }

  function SkuMatches(w: Work, item: Item): seq<ProductId> { Lookup(w.bySku, Fold(NormalSku(item))) }

  function BarcodeMatches(w: Work, item: Item): seq<ProductId> {
    if CleanOptional(item.barcode).Some? then Lookup(w.byBarcode, CleanOptional(item.barcode).value) else []
  }

  function MatchRefusal(w: Work, item: Item): Option<Refusal> {
    if |SkuMatches(w, item)| > 1 || |BarcodeMatches(w, item)| > 1 then Some(Ambiguous)
    else if SkuMatches(w, item) == [] || BarcodeMatches(w, item) == [] then None
    else if SkuMatches(w, item)[0] != BarcodeMatches(w, item)[0] then Some(Mismatch)
    else None
  }

  /** The product a line goes to: the SKU's, failing that the barcode's, failing that a new one. */
  function Resolved(w: Work, item: Item): ProductId {
    if SkuMatches(w, item) != [] then SkuMatches(w, item)[0]
    else if BarcodeMatches(w, item) != [] then BarcodeMatches(w, item)[0]
    else |w.products|
  }

  predicate IsNew(w: Work, item: Item) { SkuMatches(w, item) == [] && BarcodeMatches(w, item) == [] }

  function NewProduct(item: Item): Product {
    Product(NormalSku(item), Strip(item.name), Strip(item.unit), CleanOptional(item.category),
            CleanOptional(item.barcode))
  }

  function UpdatedProduct(product: Product, item: Item): Product {
    Product(product.sku, Strip(item.name), Strip(item.unit),
            if CleanOptional(item.category).Some? then CleanOptional(item.category) else product.category,
            if CleanOptional(item.barcode).Some? then CleanOptional(item.barcode) else product.barcode)
  }

  /** The product table and both indexes after a line; only a new product reaches the indexes. */
  function WithProduct(w: Work, item: Item): Work {
    var id := Resolved(w, item);
    if IsNew(w, item) then
      w.(products := w.products + [NewProduct(item)],
         bySku := AddTo(w.bySku, Fold(NormalSku(item)), id),
         byBarcode := if CleanOptional(item.barcode).None? then w.byBarcode
                      else AddTo(w.byBarcode, CleanOptional(item.barcode).value, id))
    else if id < |w.products| then w.(products := w.products[id := UpdatedProduct(w.products[id], item)])
    else w
  }

  function LineRefusal(w: Work, item: Item, request: Request, index: nat): Option<Refusal> {
    if MatchRefusal(w, item).Some? then MatchRefusal(w, item)
    else
      var shelf := Shelf(request.storeId, Resolved(w, item));
      EventRefusal(EnsureShelf(w.onHand, shelf), w.events, shelf, item.quantity,
                   LineKey(request.key, item.lineId, index))
  }

  function ApplyLine(w: Work, item: Item, request: Request, index: nat, source: Scope): Work {
    var shelf := Shelf(request.storeId, Resolved(w, item));
    var stocked := EnsureShelf(w.onHand, shelf);
    var after := stocked[shelf] + item.quantity;
    WithProduct(w, item).(
      onHand := stocked[shelf := after],
      events := w.events + [Event(shelf, item.quantity, after, source, LineKey(request.key, item.lineId, index))],
      lines := w.lines + [Line(item.lineId, IsNew(w, item), shelf.productId, item.quantity, after)])
  }

  datatype Outcome = Failed(refusal: Refusal) | Worked(work: Work)

  function ApplyLines(w: Work, request: Request, index: nat, source: Scope): Outcome
    requires index <= |request.items|
    decreases |request.items| - index
  {
    if index == |request.items| then Worked(w)
    else
      var item := request.items[index];
      if LineRefusal(w, item, request, index).Some? then Failed(LineRefusal(w, item, request, index).value)
      else ApplyLines(ApplyLine(w, item, request, index, source), request, index + 1, source)
  }

  function Begin(s: State): Work {
    Work(s.products, SkuIndex(s.products), BarcodeIndex(s.products), s.onHand, s.events, [])
  }

  function CreatedCount(lines: seq<Line>): (count: nat)
    ensures count <= |lines|
  {
    if lines == [] then 0
    else CreatedCount(lines[..|lines| - 1]) + (if lines[|lines| - 1].created then 1 else 0)
  }

  function ResponseFor(lines: seq<Line>): Response {
    Response(CreatedCount(lines), |lines| - CreatedCount(lines), lines)
  }

  // ----- a confirmation -----

  function ConfirmResult(s: State, scope: Scope, request: Request): Result {
    var scoped := ScopedKey(scope, request.key);
    if scoped in s.confirmations then
      var row := s.confirmations[scoped];
      if row.request != request then Refused(KeyReused)
      else if row.completed && row.response.Some? then Answered(row.response.value)
      else Refused(InProgress)
    else if request.storeId !in s.stores then Refused(NotFound)
    else ResultOf(ApplyLines(Begin(s), request, 0, scope))
  }

  function ResultOf(outcome: Outcome): Result {
    match outcome
    case Failed(refusal) => Refused(refusal)
    case Worked(w) => Answered(ResponseFor(w.lines))
  }

  /** A refused confirmation is rolled back whole; a repeated one writes nothing. */
  function ConfirmIn(s: State, scope: Scope, request: Request): State {
    if ScopedKey(scope, request.key) in s.confirmations || request.storeId !in s.stores then s
    else Commit(s, scope, request, ApplyLines(Begin(s), request, 0, scope))
  }

  function Commit(s: State, scope: Scope, request: Request, outcome: Outcome): State {
    match outcome
    case Failed(_) => s
    case Worked(w) =>
      var row := IdempotencyRow(request, true, Some(ResponseFor(w.lines)));
      s.(products := w.products, onHand := w.onHand, events := w.events,
         confirmations := s.confirmations[ScopedKey(scope, request.key) := row])
  }

  function RecordIn(s: State, shelf: Shelf, delta: int, source: Scope, key: EventKey): State {
    if EventRefusal(s.onHand, s.events, shelf, delta, key).Some? then s
    else
      s.(onHand := s.onHand[shelf := s.onHand[shelf] + delta],
         events := s.events + [Event(shelf, delta, s.onHand[shelf] + delta, source, key)])
  }

  class InventoryService {
    const stores: set<StoreId>
    var products: seq<Product>
    var onHand: map<Shelf, int>
    var events: seq<Event>
    var confirmations: map<ScopedKey, IdempotencyRow>

    constructor (stores: set<StoreId>, onHand: map<Shelf, int>, products: seq<Product>)
      ensures View() == State(stores, products, onHand, [], map[])
    {
      this.stores, this.onHand, this.products := stores, onHand, products;
      events, confirmations := [], map[];
    }

    function View(): State
      reads this
    {
      State(stores, products, onHand, events, confirmations)
    }

    /** record_event with apply_event. */
    method RecordEvent(shelf: Shelf, delta: int, source: Scope, key: EventKey) returns (refusal: Option<Refusal>)
      modifies this`onHand, this`events
      ensures View() == RecordIn(old(View()), shelf, delta, source, key)
      ensures refusal == EventRefusal(old(onHand), old(events), shelf, delta, key)
    {
      if shelf !in onHand {
        return Some(NotFound);
      }
      var updated := onHand[shelf] + delta;
      if updated < 0 {
        return Some(NegativeStock);
      }
      if KeyUsed(events, key) {
        return Some(DuplicateEvent);
      }
      onHand := onHand[shelf := updated];
      events := events + [Event(shelf, delta, updated, source, key)];
      refusal := None;
    }

    /** The loop works on the session's copies; a refusal leaves the committed fields alone. */
    method ConfirmReceipt(scope: Scope, request: Request) returns (result: Result)
      modifies this`products, this`onHand, this`events, this`confirmations
      ensures View() == ConfirmIn(old(View()), scope, request)
      ensures result == ConfirmResult(old(View()), scope, request)
    {
      var scoped := ScopedKey(scope, request.key);
      if scoped in confirmations {
        var row := confirmations[scoped];
        if row.request != request {
          return Refused(KeyReused);
        }
        if row.completed && row.response.Some? {
          return Answered(row.response.value);
        }
        return Refused(InProgress);
      }
      if request.storeId !in stores {
        return Refused(NotFound);
      }
      var w := Begin(View());
      ghost var outcome := ApplyLines(w, request, 0, scope);
      for index := 0 to |request.items|
        invariant View() == old(View())
        invariant outcome == ApplyLines(w, request, index, scope)
      {
        var refusal, next := ConfirmLine(w, request.items[index], request, index, scope);
        if refusal.Some? {
          assert outcome == Failed(refusal.value);
          return Refused(refusal.value);
        }
        w := next;
      }
      assert outcome == Worked(w);
      products, onHand, events := w.products, w.onHand, w.events;
      confirmations := confirmations[scoped := IdempotencyRow(request, true, Some(ResponseFor(w.lines)))];
      result := Answered(ResponseFor(w.lines));
    }

    /** Match the line's SKU and barcode, and create or update the product. */
    method PutProduct(w: Work, item: Item) returns (refusal: Option<Refusal>, next: Work, id: ProductId, created: bool)
      ensures refusal == MatchRefusal(w, item)
      ensures refusal.None? ==> next == WithProduct(w, item) && id == Resolved(w, item) && created == IsNew(w, item)
    {
      next, id := w, |w.products|;
      var sku, barcode := NormalSku(item), CleanOptional(item.barcode);
      var skuMatches := Lookup(w.bySku, Fold(sku));
      var barcodeMatches := if barcode.Some? then Lookup(w.byBarcode, barcode.value) else [];
      created := skuMatches == [] && barcodeMatches == [];
      if |skuMatches| > 1 || |barcodeMatches| > 1 {
        return Some(Ambiguous), next, id, created;
      }
      if skuMatches != [] && barcodeMatches != [] && skuMatches[0] != barcodeMatches[0] {
        return Some(Mismatch), next, id, created;
      }
      if created {
        next := next.(products := next.products + [NewProduct(item)], bySku := AddTo(next.bySku, Fold(sku), id));
        if barcode.Some? {
          next := next.(byBarcode := AddTo(next.byBarcode, barcode.value, id));
        }
      } else {
        id := if skuMatches != [] then skuMatches[0] else barcodeMatches[0];
        if id < |next.products| {
          next := next.(products := next.products[id := UpdatedProduct(next.products[id], item)]);
        }
      }
      refusal := None;
    }

    /** The body of the loop: the product, then the stock event. */
    method ConfirmLine(w: Work, item: Item, request: Request, index: nat,
                       source: Scope) returns (refusal: Option<Refusal>, next: Work)
      ensures refusal == LineRefusal(w, item, request, index)
      ensures refusal.None? ==> next == ApplyLine(w, item, request, index, source)
    {
      var id, created;
      refusal, next, id, created := PutProduct(w, item);
      if refusal.Some? {
        return;
      }
      var shelf := Shelf(request.storeId, id);
      next := next.(onHand := EnsureShelf(next.onHand, shelf));
      var updated := next.onHand[shelf] + item.quantity;
      var key := LineKey(request.key, item.lineId, index);
      if updated < 0 {
        return Some(NegativeStock), next;
      }
      if KeyUsed(next.events, key) {
        return Some(DuplicateEvent), next;
      }
      next := next.(
        onHand := next.onHand[shelf := updated],
        events := next.events + [Event(shelf, item.quantity, updated, source, key)],
        lines := next.lines + [Line(item.lineId, created, id, item.quantity, updated)]);
    }
  }
}
