/** The buyer's offer checks and counter price, and the two suppliers' answers to a counter. */
module Negotiation {
  import opened Money
  import opened Entities

  datatype OfferFailure =
    | RoundLimit
    | SupplierNotAllowed
    | QuantityOutOfBounds
    | InsufficientSupplierInventory
    | PriceLimit
    | DeliveryDeadline

  datatype Constraints = Constraints(
    minQuantity: Milli,
    maxQuantity: int,
    maxUnitPrice: int,
    allowedSuppliers: set<SupplierId>,
    maxRounds: nat)

  /** Whether one named check rejects the offer. */
  predicate Violates(f: OfferFailure, quote: SupplierQuote, request: PurchaseRequest, c: Constraints, round: nat) {
    match f
    case RoundLimit => round > c.maxRounds
    case SupplierNotAllowed => quote.supplierId !in c.allowedSuppliers
    case QuantityOutOfBounds => request.quantity < c.minQuantity || request.quantity > c.maxQuantity
    case InsufficientSupplierInventory => quote.available < request.quantity
    case PriceLimit => quote.unitPrice > c.maxUnitPrice || quote.unitPrice > request.maxPrice
    case DeliveryDeadline => quote.deliveryAt > request.deliveryDeadline
  }

  function Check(f: OfferFailure, quote: SupplierQuote, request: PurchaseRequest, c: Constraints,
                 round: nat): seq<OfferFailure> {
    if Violates(f, quote, request, c, round) then [f] else []
  }

  /** The checks that reject the offer, in the order in which they are made. */
  function OfferFailures(quote: SupplierQuote, request: PurchaseRequest, c: Constraints, round: nat)
    : (failures: seq<OfferFailure>)
    ensures forall f :: f in failures <==> Violates(f, quote, request, c, round)
  {
    Check(RoundLimit, quote, request, c, round)
    + Check(SupplierNotAllowed, quote, request, c, round)
    + Check(QuantityOutOfBounds, quote, request, c, round)
    + Check(InsufficientSupplierInventory, quote, request, c, round)
    + Check(PriceLimit, quote, request, c, round)
    + Check(DeliveryDeadline, quote, request, c, round)
  }

  method ValidateOffer(quote: SupplierQuote, request: PurchaseRequest, c: Constraints, round: nat)
    returns (valid: bool, failures: seq<OfferFailure>)
    ensures failures == OfferFailures(quote, request, c, round)
    ensures valid <==> failures == []
  {
    failures := [];
    if round > c.maxRounds {
      failures := failures + [RoundLimit];
    }
    assert failures == Check(RoundLimit, quote, request, c, round);
    ghost var before := failures;
    if quote.supplierId !in c.allowedSuppliers {
      failures := failures + [SupplierNotAllowed];
    }
    assert failures == before + Check(SupplierNotAllowed, quote, request, c, round);
    before := failures;
    if request.quantity < c.minQuantity || request.quantity > c.maxQuantity {
      failures := failures + [QuantityOutOfBounds];
    }
    assert failures == before + Check(QuantityOutOfBounds, quote, request, c, round);
    before := failures;
    if quote.available < request.quantity {
      failures := failures + [InsufficientSupplierInventory];
    }
    assert failures == before + Check(InsufficientSupplierInventory, quote, request, c, round);
    before := failures;
    if quote.unitPrice > c.maxUnitPrice || quote.unitPrice > request.maxPrice {
      failures := failures + [PriceLimit];
    }
    assert failures == before + Check(PriceLimit, quote, request, c, round);
    before := failures;
    if quote.deliveryAt > request.deliveryDeadline {
      failures := failures + [DeliveryDeadline];
    }
    assert failures == before + Check(DeliveryDeadline, quote, request, c, round);
    valid := failures == [];
  }

  // ----- counter price -----

  /** The midpoint of quote and target rounded to paise, never above the buyer's limit. */
  function CounterPrice(quoted: Paise, target: Paise, limit: Paise): Paise {
    if quoted <= target then quoted else Min(RoundHalfEven(quoted + target, 2), limit)
  }

  lemma CounterPriceIsBounded(quoted: Paise, target: Paise, limit: Paise)
    requires target <= limit && quoted > target
    ensures target <= CounterPrice(quoted, target, limit) <= Min(quoted, limit)
  {
  }

  /** What a supplier accepts: the lowest price it will sell at, `percent` of its own quote. */
  function Floor(quoted: Paise, percent: nat): Paise {
    RoundHalfEven(percent * quoted, 100)
  }

  const MOCK_FLOOR := 94
  const CATALOG_FLOOR := 90

  /** The supplier's half of the exchange: None is a refusal, Some the revised unit price. */
  function AnswerCounter(quoted: Paise, available: Milli, offered: Paise, quantity: Milli,
                         percent: nat): Option<Paise> {
    if offered < Floor(quoted, percent) || quantity > available then None
    else Some(Max(offered, Floor(quoted, percent)))
  }

  /** Negotiating never raises the price, never breaks the limit and never sells below the floor. */
  lemma AcceptedCounterIsBetween(quoted: Paise, available: Milli, target: Paise, limit: Paise, quantity: Milli,
                                 percent: nat)
    requires target <= limit && quoted > target
    requires AnswerCounter(quoted, available, CounterPrice(quoted, target, limit), quantity, percent).Some?
    ensures var agreed := AnswerCounter(quoted, available, CounterPrice(quoted, target, limit), quantity,
                                        percent).value;
      Floor(quoted, percent) <= agreed <= Min(quoted, limit) && target <= agreed
  {
    CounterPriceIsBounded(quoted, target, limit);
  }

  /** Exactly when a counter reaches a floor: the limit does, and quote plus target reaches twice
      the floor, where rounding lets an even floor be missed by one paisa. */
  lemma CounterReachesFloorExactly(quoted: Paise, target: Paise, limit: Paise, floor: Paise)
    requires target <= limit && quoted > target
    ensures CounterPrice(quoted, target, limit) >= floor <==>
      limit >= floor && quoted + target >= 2 * floor - (if floor % 2 == 0 then 1 else 0)
  {
  }

  /** The mock supplier: 88% of the quote is always enough, and two paise below it never is. */
  lemma MockAcceptanceThreshold(quoted: Paise, target: Paise, limit: Paise)
    requires target <= limit && quoted > target
    ensures 100 * target >= 88 * quoted && limit >= Floor(quoted, MOCK_FLOOR)
            ==> CounterPrice(quoted, target, limit) >= Floor(quoted, MOCK_FLOOR)
    ensures CounterPrice(quoted, target, limit) >= Floor(quoted, MOCK_FLOOR) ==> 100 * target >= 88 * quoted - 200
  {
    RoundIsNearestEven(MOCK_FLOOR * quoted, 100);
    RoundIsNearestEven(quoted + target, 2);
  }

  /** The catalogue supplier: the same shape at 80% of the quote. */
  lemma CatalogAcceptanceThreshold(quoted: Paise, target: Paise, limit: Paise)
    requires target <= limit && quoted > target
    ensures 100 * target >= 80 * quoted && limit >= Floor(quoted, CATALOG_FLOOR)
            ==> CounterPrice(quoted, target, limit) >= Floor(quoted, CATALOG_FLOOR)
    ensures CounterPrice(quoted, target, limit) >= Floor(quoted, CATALOG_FLOOR) ==> 100 * target >= 80 * quoted - 200
  {
    RoundIsNearestEven(CATALOG_FLOOR * quoted, 100);
    RoundIsNearestEven(quoted + target, 2);
  }
}
