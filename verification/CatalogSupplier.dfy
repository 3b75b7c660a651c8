/** The adapter for suppliers that keep their own catalogue: it quotes what is in stock, takes
    counters down to its floor, and leaves every order waiting for the supplier. */
module CatalogSupplier {
  import opened Money
  import opened Entities
  import opened Negotiation
  import opened Text

  /** "catalog:supplier:request:sku"; a supplier's UUID has no colon, so the text names it. */
  datatype QuoteId = QuoteId(supplierId: SupplierId, requestId: string, sku: string)

  datatype Quote = Quote(id: QuoteId, supplierId: SupplierId, available: Milli, unitPrice: Paise, deliveryAt: Instant,
                         expiresAt: Instant)

  /** What place_order is given of a proposal. */
  datatype Proposal = Proposal(quoteId: QuoteId, supplierId: SupplierId, unitPrice: Paise, quantity: Milli)

  /** A catalogue row joined with its supplier and product. */
  datatype CatalogRow = CatalogRow(supplierId: SupplierId, active: bool, sku: string, available: Milli,
                                   unitPrice: Paise, leadTime: nat)

  const QUOTE_LIFETIME := 600

  predicate CanQuote(row: CatalogRow, sku: string, quantity: Milli) {
    row.active && row.available >= quantity && Upper(row.sku) == Upper(Strip(sku))
  }

  function QuoteOf(row: CatalogRow, requestId: string, sku: string, now: Instant): Quote {
    Quote(QuoteId(row.supplierId, requestId, sku), row.supplierId, row.available, row.unitPrice, now + row.leadTime,
          now + QUOTE_LIFETIME)
  }

  /** The quotes for the rows, which come in the order of the query. */
  function Quotes(rows: seq<CatalogRow>, requestId: string, sku: string, quantity: Milli, now: Instant): seq<Quote> {
    if rows == [] then []
    else
      Quotes(rows[..|rows| - 1], requestId, sku, quantity, now)
      + (if CanQuote(rows[|rows| - 1], sku, quantity) then [QuoteOf(rows[|rows| - 1], requestId, sku, now)] else [])
  }

  function Hold(held: map<QuoteId, Quote>, quotes: seq<Quote>): map<QuoteId, Quote> {
    if quotes == [] then held
    else Hold(held, quotes[..|quotes| - 1])[quotes[|quotes| - 1].id := quotes[|quotes| - 1]]
  }

  function Countered(quote: Quote, offered: Paise, quantity: Milli): Option<Quote> {
    if quantity > quote.available || offered < Floor(quote.unitPrice, CATALOG_FLOOR) then None
    else Some(quote.(unitPrice := offered))
  }

  function AfterCounter(held: map<QuoteId, Quote>, quote: Quote, offered: Paise, quantity: Milli): map<QuoteId, Quote> {
    var revised := Countered(quote, offered, quantity);
    if revised.None? then held else held[quote.id := revised.value]
  }

  /** An order is taken on for a held quote of the proposal's own supplier. */
  predicate CanOrder(held: map<QuoteId, Quote>, proposal: Proposal) {
    proposal.quoteId in held && held[proposal.quoteId].supplierId == proposal.supplierId
  }

  class CatalogSupplierAdapter {
    var held: map<QuoteId, Quote>

    constructor ()
      ensures held == map[]
    {
      held := map[];
    }

    /** rows is the catalogue as the query orders it. */
    method Discover(rows: seq<CatalogRow>, requestId: string, sku: string, quantity: Milli,
                    now: Instant) returns (quotes: seq<Quote>)
      modifies this
      ensures quotes == Quotes(rows, requestId, sku, quantity, now)
      ensures held == Hold(old(held), quotes)
    {
      quotes := [];
      for i := 0 to |rows|
        invariant quotes == Quotes(rows[..i], requestId, sku, quantity, now)
        invariant held == Hold(old(held), quotes)
      {
        assert rows[..i + 1][..i] == rows[..i];
        if rows[i].active && rows[i].available >= quantity && Upper(rows[i].sku) == Upper(Strip(sku)) {
          var quote := QuoteOf(rows[i], requestId, sku, now);
          held := held[quote.id := quote];
          assert (quotes + [quote])[..|quotes|] == quotes;
          quotes := quotes + [quote];
        }
      }
      assert rows[..|rows|] == rows;
    }

    method CounterOffer(quote: Quote, offered: Paise, quantity: Milli) returns (revised: Option<Quote>)
      modifies this
      ensures revised == Countered(quote, offered, quantity)
      ensures held == AfterCounter(old(held), quote, offered, quantity)
    {
      if quantity > quote.available {
        return None;
      }
      var floor := Floor(quote.unitPrice, CATALOG_FLOOR);
      if offered < floor {
        return None;
      }
      revised := Some(quote.(unitPrice := offered));
      held := held[quote.id := revised.value];
    }

    /** None is the exception; otherwise the order waits for the supplier, without a reference. */
    method PlaceOrder(proposal: Proposal, orderId: nat) returns (result: Option<OrderResult>)
      ensures result == if CanOrder(held, proposal) then Some(OrderResult(orderId, ApprovalPending, None)) else None
    {
      if proposal.quoteId !in held || held[proposal.quoteId].supplierId != proposal.supplierId {
        return None;
      }
      result := Some(OrderResult(orderId, ApprovalPending, None));
    }
  }

  /** The catalogue's answer to a counter is the common floor rule at 90%: what it takes is exactly
      the price offered. */
  lemma CounteredIsAnswered(quote: Quote, offered: Paise, quantity: Milli)
    ensures Countered(quote, offered, quantity).Some? <==>
      AnswerCounter(quote.unitPrice, quote.available, offered, quantity, CATALOG_FLOOR).Some?
    ensures Countered(quote, offered, quantity).Some? ==>
      && AnswerCounter(quote.unitPrice, quote.available, offered, quantity, CATALOG_FLOOR) == Some(offered)
      && Countered(quote, offered, quantity).value == quote.(unitPrice := offered)
  {
  }

  /** Discovery quotes exactly the rows that can serve the request. */
  lemma {:induction false} QuotesAreTheServingRows(rows: seq<CatalogRow>, requestId: string, sku: string,
                                                   quantity: Milli, now: Instant, quote: Quote)
    ensures quote in Quotes(rows, requestId, sku, quantity, now) <==>
      exists row :: row in rows && CanQuote(row, sku, quantity) && QuoteOf(row, requestId, sku, now) == quote
  {
    if rows != [] {
      var earlier, last := rows[..|rows| - 1], rows[|rows| - 1];
      assert rows == earlier + [last];
      QuotesAreTheServingRows(earlier, requestId, sku, quantity, now, quote);
      assert CanQuote(last, sku, quantity) && QuoteOf(last, requestId, sku, now) == quote ==> last in rows;
    }
  }

  // ----- runs -----

  datatype Event =
    | Discovery(rows: seq<CatalogRow>, requestId: string, sku: string, needed: Milli, now: Instant)
    | Counter(quote: Quote, offered: Paise, quantity: Milli)

  function Step(held: map<QuoteId, Quote>, e: Event): map<QuoteId, Quote> {
    match e
    case Discovery(rows, requestId, sku, quantity, now) => Hold(held, Quotes(rows, requestId, sku, quantity, now))
    case Counter(quote, offered, quantity) => AfterCounter(held, quote, offered, quantity)
  }

  function Run(events: seq<Event>): map<QuoteId, Quote> {
    if events == [] then map[] else Step(Run(events[..|events| - 1]), events[|events| - 1])
  }

  /** What this adapter has handed out so far, in answer to discoveries and counters. */
  function HandedOut(e: Event): seq<Quote> {
    match e
    case Discovery(rows, requestId, sku, quantity, now) => Quotes(rows, requestId, sku, quantity, now)
    case Counter(quote, offered, quantity) =>
      if Countered(quote, offered, quantity).Some? then [Countered(quote, offered, quantity).value] else []
  }

  ghost predicate WasHandedOut(events: seq<Event>, quote: Quote) {
    exists e :: e in events && quote in HandedOut(e)
  }

  /** Buyers counter only with quotes that they were handed. */
  ghost predicate CountersOwnQuotes(events: seq<Event>) {
    forall k :: 0 <= k < |events| && events[k].Counter? ==> WasHandedOut(events[..k], events[k].quote)
  }

  /** Held quotes are filed under their own id, whose supplier is theirs, and were handed out; and
      everything handed out is filed. */
  ghost predicate Filed(events: seq<Event>, held: map<QuoteId, Quote>) {
    && (forall id :: id in held ==> held[id].id == id && WasHandedOut(events, held[id]))
    && (forall q :: WasHandedOut(events, q) ==> q.supplierId == q.id.supplierId && q.id in held)
  }

  lemma {:induction false} HoldFiles(held: map<QuoteId, Quote>, quotes: seq<Quote>, id: QuoteId)
    ensures var after := Hold(held, quotes);
      && (id in after <==> id in held || exists q :: q in quotes && q.id == id)
      && (id in after ==> (after[id] in quotes && after[id].id == id) || (id in held && after[id] == held[id]))
  {
    if quotes != [] {
      HoldFiles(held, quotes[..|quotes| - 1], id);
      assert quotes == quotes[..|quotes| - 1] + [quotes[|quotes| - 1]];
    }
  }

  lemma HandedOutGrows(events: seq<Event>, e: Event, quote: Quote)
    ensures WasHandedOut(events + [e], quote) <==> WasHandedOut(events, quote) || quote in HandedOut(e)
  {
    assert e in events + [e];
    assert forall other :: other in events ==> other in events + [e];
  }

  /** One more event, in terms of what it hands out. */
  lemma StepFiles(held: map<QuoteId, Quote>, e: Event, id: QuoteId)
    ensures var after := Step(held, e);
      && (id in after <==>
            id in held || exists q :: q in HandedOut(e) && (if e.Counter? then e.quote.id else q.id) == id)
      && (id in after ==>
            (after[id] in HandedOut(e) && (after[id].id == id || e.Counter?)) || (id in held && after[id] == held[id]))
  {
    match e
    case Discovery(rows, requestId, sku, quantity, now) =>
      HoldFiles(held, Quotes(rows, requestId, sku, quantity, now), id);
    case Counter(quote, offered, quantity) =>
      if Countered(quote, offered, quantity).Some? {
        assert Countered(quote, offered, quantity).value in HandedOut(e);
      }
  }

  lemma HandedOutAreOwned(events: seq<Event>, e: Event, held: map<QuoteId, Quote>, q: Quote)
    requires Filed(events, held) && (e.Counter? ==> WasHandedOut(events, e.quote)) && q in HandedOut(e)
    ensures q.supplierId == q.id.supplierId && (e.Counter? ==> q.id == e.quote.id)
  {
    if e.Discovery? {
      QuotesAreTheServingRows(e.rows, e.requestId, e.sku, e.needed, e.now, q);
    }
  }

  lemma StepKeepsHeldFiled(events: seq<Event>, e: Event, held: map<QuoteId, Quote>, id: QuoteId)
    requires Filed(events, held) && (e.Counter? ==> WasHandedOut(events, e.quote)) && id in Step(held, e)
    ensures Step(held, e)[id].id == id && WasHandedOut(events + [e], Step(held, e)[id])
  {
    StepFiles(held, e, id);
    HandedOutGrows(events, e, Step(held, e)[id]);
  }

  lemma StepFilesAll(events: seq<Event>, e: Event, held: map<QuoteId, Quote>, q: Quote)
    requires Filed(events, held) && (e.Counter? ==> WasHandedOut(events, e.quote)) && WasHandedOut(events + [e], q)
    ensures q.supplierId == q.id.supplierId && q.id in Step(held, e)
  {
    HandedOutGrows(events, e, q);
    StepFiles(held, e, q.id);
    if q in HandedOut(e) {
      HandedOutAreOwned(events, e, held, q);
    }
  }

  lemma StepKeepsFiled(events: seq<Event>, e: Event, held: map<QuoteId, Quote>)
    requires Filed(events, held) && (e.Counter? ==> WasHandedOut(events, e.quote))
    ensures Filed(events + [e], Step(held, e))
  {
    forall id | id in Step(held, e)
      ensures Step(held, e)[id].id == id && WasHandedOut(events + [e], Step(held, e)[id])
    {
      StepKeepsHeldFiled(events, e, held, id);
    }
    forall q | WasHandedOut(events + [e], q)
      ensures q.supplierId == q.id.supplierId && q.id in Step(held, e)
    {
      StepFilesAll(events, e, held, q);
    }
  }

  lemma {:induction false} RunFiles(events: seq<Event>)
    requires CountersOwnQuotes(events)
    ensures Filed(events, Run(events))
  {
    if events != [] {
      var earlier, e := events[..|events| - 1], events[|events| - 1];
      assert forall k :: 0 <= k < |earlier| ==> events[..k] == earlier[..k];
      RunFiles(earlier);
      StepKeepsFiled(earlier, e, Run(earlier));
      assert events == earlier + [e];
    }
  }

  /** A proposal can be ordered exactly if this adapter handed out a quote under its quote id for its
      supplier. So neither its price nor its quantity matters: what can be ordered at the price that
      was handed out can be ordered at any other. */
  lemma {:induction false} HandedOutQuotesCanBeOrdered(events: seq<Event>, proposal: Proposal, price: Paise,
                                                       quantity: Milli)
    requires CountersOwnQuotes(events)
    ensures CanOrder(Run(events), proposal) <==>
      exists q :: WasHandedOut(events, q) && q.id == proposal.quoteId && q.supplierId == proposal.supplierId
    ensures CanOrder(Run(events), proposal) <==>
              CanOrder(Run(events), proposal.(unitPrice := price, quantity := quantity))
  {
    RunFiles(events);
  }
}
