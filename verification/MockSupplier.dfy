/** The mock supplier agent: signed envelopes answered at most once each by idempotency key. */
module MockSupplier {
  import opened Money
  import opened Entities
  import opened Negotiation

  datatype CatalogItem = CatalogItem(available: Milli, unitPrice: Paise, leadTimeDays: nat)

  const DAY := 86400
  const QUOTE_LIFETIME := 900

  /** The digest of merchant, SKU, quantity and day, taken as injective. */
  datatype QuoteId = QuoteId(merchantId: MerchantId, sku: string, quantity: Milli, day: nat)

  datatype Quote = Quote(id: QuoteId, sku: string, available: Milli, unitPrice: Paise, deliveryAt: Instant,
                         expiresAt: Instant)

  datatype Message =
    | PurchaseRequest(merchantId: MerchantId, sku: string, quantity: Milli)
    | CounterOffer(quoteId: QuoteId, price: Paise, amount: Milli)
    | OfferAccepted(acceptedQuote: QuoteId, orderedSku: string, ordered: Milli)
    | Unsupported

  /** verified stands for signature, receiver, expiry and clock skew. */
  datatype Envelope = Envelope(key: string, message: Message, verified: bool)

  datatype Body =
    | QuoteGiven(quote: Quote)
    | OfferRejected(rejected: QuoteId)
    | OrderConfirmation(orderKey: string, expectedAt: Instant)

  /** stamp is the random message id and nonce of the response, at the time it was made. */
  datatype Response = Response(body: Body, stamp: nat, at: Instant)

  datatype Result = Answered(response: Response) | Raised

  /** An envelope as it arrives, with the clock and the random draw of that moment. */
  datatype Delivery = Delivery(envelope: Envelope, now: Instant, stamp: nat)

  datatype Agent = Agent(
    catalog: map<string, CatalogItem>,
    failEvery: nat,
    calls: nat,
    quotes: map<QuoteId, Quote>,
    answers: map<string, Response>)

  predicate Fails(calls: nat, failEvery: nat) {
    failEvery != 0 && calls % failEvery == 0
  }

  function QuoteFor(a: Agent, m: Message, now: Instant): Option<Quote>
    requires m.PurchaseRequest?
  {
    if m.sku !in a.catalog || a.catalog[m.sku].available < m.quantity then None
    else
      var item := a.catalog[m.sku];
      Some(Quote(QuoteId(m.merchantId, m.sku, m.quantity, now / DAY), m.sku, item.available, item.unitPrice,
                 now + item.leadTimeDays * DAY, now + QUOTE_LIFETIME))
  }

  /** The body of a new answer, or None where the handler raises. */
  function NewBody(a: Agent, d: Delivery): Option<Body> {
    match d.envelope.message
    case PurchaseRequest(_, _, _) =>
      var quote := QuoteFor(a, d.envelope.message, d.now);
      if quote.None? then None else Some(QuoteGiven(quote.value))
    case CounterOffer(quoteId, price, amount) =>
      if quoteId !in a.quotes then None
      else
        var original := a.quotes[quoteId];
        var agreed := AnswerCounter(original.unitPrice, original.available, price, amount, MOCK_FLOOR);
        if agreed.None? then Some(OfferRejected(quoteId)) else Some(QuoteGiven(original.(unitPrice := agreed.value)))
    case OfferAccepted(quoteId, sku, ordered) =>
      if quoteId !in a.quotes || sku !in a.catalog || a.catalog[sku].available < ordered then None
      else Some(OrderConfirmation(d.envelope.key, a.quotes[quoteId].deliveryAt))
    case Unsupported => None
  }

  predicate IsReplay(a: Agent, d: Delivery) {
    d.envelope.verified && d.envelope.key in a.answers
  }

  /** The handler past the lookup of the key: the outage, the answer and its storing. */
  function Work(a: Agent, d: Delivery): Agent {
    if Fails(a.calls + 1, a.failEvery) || NewBody(a, d).None? then a.(calls := a.calls + 1)
    else
      var body := NewBody(a, d).value;
      a.(calls := a.calls + 1,
         quotes := if body.QuoteGiven? then a.quotes[body.quote.id := body.quote] else a.quotes,
         answers := a.answers[d.envelope.key := Response(body, d.stamp, d.now)])
  }

  function WorkReply(a: Agent, d: Delivery): Result {
    if Fails(a.calls + 1, a.failEvery) || NewBody(a, d).None? then Raised
    else Answered(Response(NewBody(a, d).value, d.stamp, d.now))
  }

  function Handle(a: Agent, d: Delivery): Agent {
    if !d.envelope.verified || d.envelope.key in a.answers then a else Work(a, d)
  }

  function Reply(a: Agent, d: Delivery): Result {
    if !d.envelope.verified then Raised
    else if d.envelope.key in a.answers then Answered(a.answers[d.envelope.key])
    else WorkReply(a, d)
  }

  class MockSupplierAdapter {
    const catalog: map<string, CatalogItem>
    const failEvery: nat
    var calls: nat
    var quotes: map<QuoteId, Quote>
    var answers: map<string, Response>

    constructor (catalog: map<string, CatalogItem>, failEvery: nat)
      ensures View() == Agent(catalog, failEvery, 0, map[], map[])
    {
      this.catalog, this.failEvery := catalog, failEvery;
      calls, quotes, answers := 0, map[], map[];
    }

    function View(): Agent
      reads this
    {
      Agent(catalog, failEvery, calls, quotes, answers)
    }

    method HandleEnvelope(d: Delivery) returns (result: Result)
      modifies this`calls, this`quotes, this`answers
      ensures View() == Handle(old(View()), d)
      ensures result == Reply(old(View()), d)
    {
      if !d.envelope.verified {
        return Raised;
      }
      if d.envelope.key in answers {
        return Answered(answers[d.envelope.key]);
      }
      calls := calls + 1;
      if failEvery != 0 && calls % failEvery == 0 {
        return Raised;
      }
      var body: Body;
      match d.envelope.message {
        case PurchaseRequest(merchantId, sku, quantity) =>
          if sku !in catalog || catalog[sku].available < quantity {
            return Raised;
          }
          var item := catalog[sku];
          var quote := Quote(QuoteId(merchantId, sku, quantity, d.now / DAY), sku, item.available, item.unitPrice,
                             d.now + item.leadTimeDays * DAY, d.now + QUOTE_LIFETIME);
          quotes := quotes[quote.id := quote];
          body := QuoteGiven(quote);
        case CounterOffer(quoteId, price, amount) =>
          if quoteId !in quotes {
            return Raised;
          }
          var original := quotes[quoteId];
          var floor := Floor(original.unitPrice, MOCK_FLOOR);
          if price < floor || amount > original.available {
            body := OfferRejected(quoteId);
          } else {
            var revised := original.(unitPrice := Max(price, floor));
            quotes := quotes[revised.id := revised];
            body := QuoteGiven(revised);
          }
        case OfferAccepted(quoteId, sku, ordered) =>
          if quoteId !in quotes || sku !in catalog || catalog[sku].available < ordered {
            return Raised;
          }
          body := OrderConfirmation(d.envelope.key, quotes[quoteId].deliveryAt);
        case Unsupported =>
          return Raised;
      }
      answers := answers[d.envelope.key := Response(body, d.stamp, d.now)];
      result := Answered(Response(body, d.stamp, d.now));
    }
  }

  // ----- sequences of deliveries -----

  function Run(a: Agent, ds: seq<Delivery>): Agent {
    if ds == [] then a else Handle(Run(a, ds[..|ds| - 1]), ds[|ds| - 1])
  }

  function Replies(a: Agent, ds: seq<Delivery>): seq<Result> {
    if ds == [] then []
    else Replies(a, ds[..|ds| - 1]) + [Reply(Run(a, ds[..|ds| - 1]), ds[|ds| - 1])]
  }

  /** The deliveries that are not replays when they arrive, and the replies to them. */
  function Fresh(a: Agent, ds: seq<Delivery>): seq<Delivery> {
    if ds == [] then []
    else
      var earlier, last := ds[..|ds| - 1], ds[|ds| - 1];
      Fresh(a, earlier) + (if IsReplay(Run(a, earlier), last) then [] else [last])
  }

  function FreshReplies(a: Agent, ds: seq<Delivery>): seq<Result> {
    if ds == [] then []
    else
      var earlier, last := ds[..|ds| - 1], ds[|ds| - 1];
      FreshReplies(a, earlier) + (if IsReplay(Run(a, earlier), last) then [] else [Reply(Run(a, earlier), last)])
  }

  /** With every replay deleted, the quotes, the stored answers and the call count end up the same,
      and all other deliveries get the replies they got before. */
  lemma {:induction false} ReplaysAreInvisible(a: Agent, ds: seq<Delivery>)
    ensures Run(a, Fresh(a, ds)) == Run(a, ds)
    ensures Replies(a, Fresh(a, ds)) == FreshReplies(a, ds)
  {
    if ds != [] {
      var earlier, last := ds[..|ds| - 1], ds[|ds| - 1];
      ReplaysAreInvisible(a, earlier);
      if IsReplay(Run(a, earlier), last) {
        assert Fresh(a, ds) == Fresh(a, earlier) && FreshReplies(a, ds) == FreshReplies(a, earlier);
      } else {
        assert Fresh(a, ds)[..|Fresh(a, ds)| - 1] == Fresh(a, earlier);
      }
    }
  }

  lemma {:induction false} AnswersAreKept(a: Agent, ds: seq<Delivery>, key: string)
    requires key in a.answers
    ensures key in Run(a, ds).answers && Run(a, ds).answers[key] == a.answers[key]
  {
    if ds != [] {
      AnswersAreKept(a, ds[..|ds| - 1], key);
    }
  }

  /** Once a key has been answered, every verified envelope with that key gets that same answer,
      however much later and whatever it says, and changes nothing. */
  lemma {:induction false} RepeatedKeyGetsTheFirstAnswer(a: Agent, first: Delivery, between: seq<Delivery>,
                                                         again: Delivery)
    requires Reply(a, first).Answered? && again.envelope.verified && again.envelope.key == first.envelope.key
    ensures var later := Run(Handle(a, first), between);
      Reply(later, again) == Reply(a, first) && Handle(later, again) == later
  {
    AnswersAreKept(Handle(a, first), between, first.envelope.key);
  }

  /** A failure is not remembered: only the call count moves, and the same envelope, delivered
      again when the agent is up, is answered exactly when its message can be served then. */
  lemma FailuresAreProcessedAgain(a: Agent, d: Delivery, again: Delivery)
    requires d.envelope.verified && d.envelope.key !in a.answers && Reply(a, d).Raised? && again.envelope == d.envelope
    ensures Handle(a, d) == a.(calls := a.calls + 1)
    ensures Reply(Handle(a, d), again).Answered? <==> !Fails(a.calls + 2, a.failEvery) && NewBody(a, again).Some?
  {
    assert NewBody(Handle(a, d), again) == NewBody(a, again);
  }

  /** An accepted counter sells at exactly the countered price, never below the floor of the price
      it replaces, and the stored quote changes in nothing else. */
  lemma CounterRespectsTheFloor(a: Agent, d: Delivery)
    requires d.envelope.message.CounterOffer? && d.envelope.verified && d.envelope.key !in a.answers
    requires Reply(a, d).Answered? && Reply(a, d).response.body.QuoteGiven?
    ensures var before, after := a.quotes[d.envelope.message.quoteId], Reply(a, d).response.body.quote;
      && after == before.(unitPrice := d.envelope.message.price)
      && after.unitPrice >= Floor(before.unitPrice, MOCK_FLOOR)
      && Handle(a, d).quotes[after.id] == after
  {
  }

  // ----- counters on one quote -----

  /** The lowest price that n accepted counters can bring a price down to. */
  function Lowest(price: Paise, n: nat): Paise {
    if n == 0 then price else Floor(Lowest(price, n - 1), MOCK_FLOOR)
  }

  lemma FloorIsMonotone(low: Paise, high: Paise)
    requires low <= high
    ensures Floor(low, MOCK_FLOOR) <= Floor(high, MOCK_FLOOR)
  {
    RoundIsNearestEven(MOCK_FLOOR * low, 100);
    RoundIsNearestEven(MOCK_FLOOR * high, 100);
  }

  predicate AcceptsCounter(a: Agent, d: Delivery, id: QuoteId) {
    && d.envelope.message.CounterOffer? && d.envelope.message.quoteId == id
    && !IsReplay(a, d) && Reply(a, d).Answered? && Reply(a, d).response.body.QuoteGiven?
  }

  /** The delivery makes the agent quote id anew, at its catalogue price. */
  predicate Requotes(a: Agent, d: Delivery, id: QuoteId) {
    && d.envelope.message.PurchaseRequest?
    && !IsReplay(a, d) && Reply(a, d).Answered?
       && Reply(a, d).response.body == QuoteGiven(QuoteFor(a, d.envelope.message, d.now).value)
    && QuoteFor(a, d.envelope.message, d.now).value.id == id
  }

  /** The price at which id was last quoted; failing that the price it has at the start, if any. */
  function QuotedPrice(a: Agent, ds: seq<Delivery>, id: QuoteId): Paise {
    if ds == [] then (if id in a.quotes then a.quotes[id].unitPrice else 0)
    else
      var before, last := Run(a, ds[..|ds| - 1]), ds[|ds| - 1];
      if Requotes(before, last, id) then before.catalog[last.envelope.message.sku].unitPrice
      else QuotedPrice(a, ds[..|ds| - 1], id)
  }

  /** The counters on id accepted since it was last quoted. */
  function AcceptedCounters(a: Agent, ds: seq<Delivery>, id: QuoteId): nat {
    if ds == [] then 0
    else
      var before, last := Run(a, ds[..|ds| - 1]), ds[|ds| - 1];
      if Requotes(before, last, id) then 0
      else AcceptedCounters(a, ds[..|ds| - 1], id) + (if AcceptsCounter(before, last, id) then 1 else 0)
  }

  ghost predicate QuotesAreTheirOwn(a: Agent) {
    forall id :: id in a.quotes ==> a.quotes[id].id == id
  }

  lemma DeliveryRespectsTheFloor(a: Agent, d: Delivery, id: QuoteId)
    requires QuotesAreTheirOwn(a)
    ensures QuotesAreTheirOwn(Handle(a, d))
    ensures id in Handle(a, d).quotes <==> id in a.quotes || Requotes(a, d, id)
    ensures id in Handle(a, d).quotes ==>
      var price := Handle(a, d).quotes[id].unitPrice;
      if Requotes(a, d, id) then price == a.catalog[d.envelope.message.sku].unitPrice
      else if AcceptsCounter(a, d, id) then price >= Floor(a.quotes[id].unitPrice, MOCK_FLOOR)
      else price == a.quotes[id].unitPrice
  {
  }

  /** In every run, from the constructed agent and on, the price of a quote stays above what the
      counters accepted since it was last quoted allow, whatever else is asked, replayed or refused. */
  lemma {:induction false} PriceStaysAboveLowest(a: Agent, ds: seq<Delivery>, id: QuoteId)
    requires QuotesAreTheirOwn(a)
    ensures QuotesAreTheirOwn(Run(a, ds))
    ensures id in Run(a, ds).quotes ==>
      Run(a, ds).quotes[id].unitPrice >= Lowest(QuotedPrice(a, ds, id), AcceptedCounters(a, ds, id))
  {
    if ds != [] {
      var earlier, last := ds[..|ds| - 1], ds[|ds| - 1];
      PriceStaysAboveLowest(a, earlier, id);
      var before := Run(a, earlier);
      DeliveryRespectsTheFloor(before, last, id);
      if id in before.quotes {
        FloorIsMonotone(Lowest(QuotedPrice(a, earlier, id), AcceptedCounters(a, earlier, id)),
                        before.quotes[id].unitPrice);
      }
    }
  }

  function AtFloor(price: Paise, id: QuoteId, key: string): Delivery {
    Delivery(Envelope(key, CounterOffer(id, Floor(price, MOCK_FLOOR), 1), true), 0, 0)
  }

  function Squeeze(price: Paise, id: QuoteId, keys: seq<string>): (ds: seq<Delivery>)
    ensures |ds| == |keys|
  {
    if keys == [] then []
    else Squeeze(price, id, keys[..|keys| - 1]) + [AtFloor(Lowest(price, |keys| - 1), id, keys[|keys| - 1])]
  }

  lemma CounterAtFloorIsTaken(a: Agent, id: QuoteId, key: string)
    requires a.failEvery == 0 && key !in a.answers
    requires id in a.quotes && a.quotes[id].id == id && a.quotes[id].available >= 1
    ensures var after := Handle(a, AtFloor(a.quotes[id].unitPrice, id, key));
      && after.quotes == a.quotes[id := a.quotes[id].(unitPrice := Floor(a.quotes[id].unitPrice, MOCK_FLOOR))]
      && after.answers.Keys == a.answers.Keys + {key}
      && after.failEvery == 0
  {
  }

  /** The floor is taken of the price now stored, so it binds each counter and not the quote: a
      counter under each of n new keys brings the price down to exactly the n-fold floor. */
  lemma {:induction false} FloorsCompound(a: Agent, id: QuoteId, keys: seq<string>)
    requires a.failEvery == 0 && id in a.quotes && a.quotes[id].id == id && a.quotes[id].available >= 1
    requires forall i, j :: 0 <= i < j < |keys| ==> keys[i] != keys[j]
    requires forall key :: key in keys ==> key !in a.answers
    ensures var after := Run(a, Squeeze(a.quotes[id].unitPrice, id, keys));
      && after.quotes == a.quotes[id := a.quotes[id].(unitPrice := Lowest(a.quotes[id].unitPrice, |keys|))]
      && (forall key :: key in after.answers ==> key in a.answers || key in keys)
      && after.failEvery == 0
  {
    if keys != [] {
      var earlier, last := keys[..|keys| - 1], keys[|keys| - 1];
      var price := a.quotes[id].unitPrice;
      assert keys == earlier + [last];
      FloorsCompound(a, id, earlier);
      var before := Run(a, Squeeze(price, id, earlier));
      CounterAtFloorIsTaken(before, id, last);
      assert Squeeze(price, id, keys)[..|earlier|] == Squeeze(price, id, earlier);
      assert Run(a, Squeeze(price, id, keys)) == Handle(before, AtFloor(before.quotes[id].unitPrice, id, last));
    }
  }
}
