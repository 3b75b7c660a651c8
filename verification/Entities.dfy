/** The frozen value models of the purchase domain. Identifiers are UUIDs that are only ever
    compared, so numbers stand for them. Times are seconds. */
module Entities {
  import opened Money

  datatype Option<+T> = None | Some(value: T)

  type SupplierId = nat
  type MerchantId = nat
  type StoreId = nat
  type ApprovalId = nat
  type Instant = nat

  /** One currency is used throughout, so the field is left out of quotes and proposals. */
  datatype SupplierQuote = SupplierQuote(
    supplierId: SupplierId,
    sku: string,
    available: Milli,
    unitPrice: Price,
    deliveryAt: Instant,
    quoteId: string,
    expiresAt: Instant)

  datatype PurchaseRequest = PurchaseRequest(
    sku: string,
    quantity: int,
    targetPrice: int,
    maxPrice: int,
    deliveryDeadline: Instant)
  {
    /** The field bounds and the model validator; building any other request raises. */
    predicate Valid() {
      quantity > 0 && targetPrice > 0 && maxPrice > 0 && targetPrice <= maxPrice
    }
  }

  /** UUIDv5 over "request:revision" (RFC 9562 section 5.5), taken as injective in its name. */
  datatype ProposalId = ProposalId(requestId: string, revision: nat)

  datatype PurchaseProposal = PurchaseProposal(
    proposalId: ProposalId,
    merchantId: MerchantId,
    storeId: StoreId,
    supplierId: SupplierId,
    sku: string,
    quantity: Milli,
    unit: string,
    unitPrice: Price,
    deliveryAt: Instant,
    quoteId: string)
  {
    /** In thousandths of a paisa, the exact unit of quantity times price. */
    function TotalAmount(): nat { quantity * unitPrice }
  }

  /** The SHA-256 of the canonical payload, taken as injective: the payload stands for it. */
  datatype OrderHash = OrderHash(payload: PurchaseProposal)

  function CanonicalOrderHash(proposal: PurchaseProposal): OrderHash { OrderHash(proposal) }

  datatype OrderStatus =
    | OrderProposed | ApprovalPending | OrderApproved | Executing | Confirmed | OrderFailed | OrderCancelled

  datatype OrderResult = OrderResult(orderId: nat, status: OrderStatus, confirmation: Option<string>)
  {
    /** A confirmed order that carries a non-empty supplier reference. */
    predicate ConfirmedWithReference() {
      status == Confirmed && HasReference()
    }
    predicate HasReference() {
      confirmation.Some? && confirmation.value != ""
    }
  }
}
