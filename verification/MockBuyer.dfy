/** The buyer's half of an exchange with the mock supplier: it verifies the answer's envelope, and it
    asks again under the same key in every revision of a request. */
module MockBuyer {
  import opened Entities
  import opened Negotiation
  import opened NegotiateNode
  import opened SupplierTools
  import PurchaseWorkflow
  import opened MockSupplier

  const ENVELOPE_LIFETIME := 300
  const CLOCK_SKEW := 300

  /** The supplier, as an id and as the text of that id in a key; naming is how quote ids are written. */
  datatype Peer = Peer(supplierId: SupplierId, name: string, naming: QuoteId -> string)

  /** The request id and the supplier, but not the revision. */
  function CounterKey(requestId: string, peer: Peer): string { requestId + ":counter:" + peer.name }

  /** The answer's envelope has not expired and is dated within the clock skew. */
  predicate Verifies(r: Response, now: Instant) {
    now < r.at + ENVELOPE_LIFETIME && now <= r.at + CLOCK_SKEW && r.at <= now + CLOCK_SKEW
  }

  function AsQuote(q: Quote, peer: Peer): SupplierQuote
    requires q.unitPrice > 0
  {
    SupplierQuote(peer.supplierId, q.sku, q.available, q.unitPrice, q.deliveryAt, peer.naming(q.id), q.expiresAt)
  }

  /** What counter_offer makes of the supplier's reply; every exception leaves the node. */
  function CounterOutcome(reply: Result, now: Instant, peer: Peer): CounterReply {
    if reply.Raised? || !Verifies(reply.response, now) then Broken
    else
      match reply.response.body
      case OfferRejected(_) => Declined
      case QuoteGiven(q) => if q.unitPrice == 0 then Broken else Offered(AsQuote(q, peer))
      case OrderConfirmation(_, _) => Broken
  }

  /** What discover makes of it: only the supplier's own unavailability is skipped. */
  function DiscoverOutcome(reply: Result, now: Instant, peer: Peer): DiscoverReply {
    if reply.Raised? then Unavailable
    else if !Verifies(reply.response, now) then Crashed
    else
      match reply.response.body
      case QuoteGiven(q) => if q.unitPrice == 0 then Crashed else Quotes([AsQuote(q, peer)])
      case _ => Unavailable
  }

  /** The counter that the negotiate node sends for a quote. */
  function Counter(requestId: string, peer: Peer, id: QuoteId, quote: SupplierQuote, request: PurchaseRequest,
                   now: Instant, stamp: nat): Delivery
    requires request.Valid()
  {
    var price := CounterPrice(quote.unitPrice, request.targetPrice, request.maxPrice);
    Delivery(Envelope(CounterKey(requestId, peer), CounterOffer(id, price, request.quantity), true), now, stamp)
  }

  /** A fresh answer verifies. */
  lemma FreshAnswersVerify(a: Agent, d: Delivery)
    requires d.envelope.key !in a.answers && Reply(a, d).Answered?
    ensures Verifies(Reply(a, d).response, d.now)
  {
  }

  /** How a candidate ends that the first answer under its key was given for: the node raises once the
      answer's envelope has lapsed; until then the first answer is all there is to go by. */
  function VerdictByFirstAnswer(r: Response, now: Instant, peer: Peer, quote: SupplierQuote, request: PurchaseRequest,
                                adapters: seq<Adapter>): Verdict
  {
    if !CanServe(adapters, quote.supplierId) || !Verifies(r, now) then Breaks
    else
      match r.body
      case OrderConfirmation(_, _) => Breaks
      case OfferRejected(_) => Refuses
      case QuoteGiven(q) =>
        if q.unitPrice == 0 then Breaks
        else if OfferFailures(AsQuote(q, peer), request, ConstraintsFor(quote, request), 2) != [] then Refuses
        else Agrees(AsQuote(q, peer))
  }

  /** Once a counter has been answered, every later counter of the same request to that supplier, in
      whatever revision, for whatever price and quantity, is judged by that first answer, and the
      supplier does nothing. */
  lemma LaterCountersRepeatTheFirst(a: Agent, first: Delivery, between: seq<Delivery>, requestId: string, peer: Peer,
                                    id: QuoteId, quote: SupplierQuote, request: PurchaseRequest, now: Instant,
                                    stamp: nat, adapters: seq<Adapter>)
    requires first.envelope.key == CounterKey(requestId, peer) && Reply(a, first).Answered? && request.Valid()
    requires SendsCounter(quote, request, OfferFailures(quote, request, ConstraintsFor(quote, request), 1))
    ensures var later := Run(Handle(a, first), between);
      var counter := Counter(requestId, peer, id, quote, request, now, stamp);
      && Handle(later, counter) == later
      && Judge(quote, request, adapters, CounterOutcome(Reply(later, counter), now, peer))
         == VerdictByFirstAnswer(Reply(a, first).response, now, peer, quote, request, adapters)
  {
    RepeatedKeyGetsTheFirstAnswer(a, first, between, Counter(requestId, peer, id, quote, request, now, stamp));
  }

  /** So after a first counter at a price, the request never agrees with that supplier on another
      price; and with a limit under that price it does not agree at all. */
  lemma FirstCounterFixesThePrice(a: Agent, first: Delivery, between: seq<Delivery>, requestId: string, peer: Peer,
                                  id: QuoteId, quote: SupplierQuote, request: PurchaseRequest, now: Instant,
                                  stamp: nat, adapters: seq<Adapter>)
    requires first.envelope.key == CounterKey(requestId, peer) && Reply(a, first).Answered? && request.Valid()
    requires first.envelope.verified && first.envelope.key !in a.answers && first.envelope.message.CounterOffer?
    requires SendsCounter(quote, request, OfferFailures(quote, request, ConstraintsFor(quote, request), 1))
    ensures var counter := Counter(requestId, peer, id, quote, request, now, stamp);
      var reply := Reply(Run(Handle(a, first), between), counter);
      var verdict := Judge(quote, request, adapters, CounterOutcome(reply, now, peer));
      && (verdict.Agrees? ==> verdict.terms.unitPrice == first.envelope.message.price)
      && (request.maxPrice < first.envelope.message.price ==> !verdict.Agrees?)
  {
    LaterCountersRepeatTheFirst(a, first, between, requestId, peer, id, quote, request, now, stamp, adapters);
    if Reply(a, first).response.body.QuoteGiven? {
      CounterRespectsTheFloor(a, first);
      var terms := Reply(a, first).response.body.quote;
      if terms.unitPrice > 0 && terms.unitPrice > request.maxPrice {
        assert Violates(PriceLimit, AsQuote(terms, peer), request, ConstraintsFor(quote, request), 2);
      }
    }
  }

  /** The same for discovery, whose key names merchant, SKU, request and quantity but not the revision:
      the first quote again, or an exception that find_supplier does not skip. */
  lemma LaterDiscoveriesRepeatTheFirst(a: Agent, first: Delivery, between: seq<Delivery>, again: Delivery, peer: Peer)
    requires Reply(a, first).Answered? && again.envelope.verified && again.envelope.key == first.envelope.key
    ensures var later := Run(Handle(a, first), between);
      && Handle(later, again) == later
      && DiscoverOutcome(Reply(later, again), again.now, peer)
         == if Verifies(Reply(a, first).response, again.now) then DiscoverOutcome(Reply(a, first), again.now, peer)
            else Crashed
  {
    RepeatedKeyGetsTheFirstAnswer(a, first, between, again);
  }

  // ----- what a lapsed answer does to the thread -----

  lemma LapsedCounterRaises(candidates: seq<SupplierQuote>, k: nat, request: PurchaseRequest, adapters: seq<Adapter>,
                            replies: seq<CounterReply>, history: seq<HistoryEntry>)
    requires request.Valid() && k < |candidates| && Judge(candidates[k], request, adapters, ReplyAt(replies, k)).Breaks?
    requires forall j :: 0 <= j < k ==> Judge(candidates[j], request, adapters, ReplyAt(replies, j)).Refuses?
    ensures NegotiateFrom(candidates, 0, request, adapters, replies, history).Raised?
  {
    FirstNonRefusalIs(candidates, 0, k, request, adapters, replies);
    FirstNonRefusalDecides(candidates, 0, request, adapters, replies, history);
  }

  /** A counter that comes to a lapsed answer ends the thread, if no earlier candidate was taken. */
  lemma LapsedCounterEndsTheThread(w: PurchaseWorkflow.World, env: PurchaseWorkflow.Env, k: nat)
    requires w.node == PurchaseWorkflow.NegotiateNode && w.st.Request().Valid() && k < |w.st.candidates|
    requires forall j :: 0 <= j < k ==>
      Judge(w.st.candidates[j], w.st.Request(), w.adapters, ReplyAt(env.counters, j)).Refuses?
    requires var quote, request := w.st.candidates[k], w.st.Request();
      SendsCounter(quote, request, OfferFailures(quote, request, ConstraintsFor(quote, request), 1))
    requires ReplyAt(env.counters, k) == Broken
    ensures PurchaseWorkflow.AfterNode(w, env).node == PurchaseWorkflow.Aborted
  {
    LapsedCounterRaises(w.st.candidates, k, w.st.Request(), w.adapters, env.counters, w.st.history);
  }

  /** A discovery that comes to a lapsed answer ends the thread, whoever else quotes. */
  lemma LapsedDiscoveryEndsTheThread(w: PurchaseWorkflow.World, env: PurchaseWorkflow.Env)
    requires w.node == PurchaseWorkflow.FindSupplierNode && Crashed in env.discovered
    ensures PurchaseWorkflow.AfterNode(w, env).node == PurchaseWorkflow.Aborted
  {
  }

  // ----- one request, two revisions -----

  const PEER := Peer(7, "seven", (id: QuoteId) => "q")
  const ID := QuoteId(0, "SALT", 1000, 0)
  const LISTED := Quote(ID, "SALT", 1000, 100, 0, 900)
  const AGENT := Agent(map[], 0, 0, map[ID := LISTED], map[])
  const ASKED := PurchaseRequest.PurchaseRequest("SALT", 1000, 90, 100, 0)
  const LOWERED := ASKED.(maxPrice := 94)

  const SERVING := [Adapter(Some(7), false)]
  const AGREED := LISTED.(unitPrice := 95)

  function FirstCounter(): Delivery { Counter("r", PEER, ID, AsQuote(LISTED, PEER), ASKED, 0, 0) }

  function SecondCounter(): Delivery { Counter("r", PEER, ID, AsQuote(LISTED, PEER), LOWERED, 1, 1) }

  lemma FirstCounterIsTaken()
    ensures Reply(AGENT, FirstCounter()) == Answered(Response(QuoteGiven(AGREED), 0, 0))
    ensures Handle(AGENT, FirstCounter()).quotes == map[ID := AGREED]
    ensures Handle(AGENT, FirstCounter()).answers == map[CounterKey("r", PEER) := Response(QuoteGiven(AGREED), 0, 0)]
    ensures Handle(AGENT, FirstCounter()).failEvery == 0
  {
  }

  lemma PeerIsServed()
    ensures CanServe(SERVING, 7)
  {
    assert SERVING[0] in SERVING;
  }

  lemma FirstCounterAgrees()
    ensures Judge(AsQuote(LISTED, PEER), ASKED, SERVING, CounterOutcome(Reply(AGENT, FirstCounter()), 0, PEER))
         == Agrees(AsQuote(AGREED, PEER))
  {
    FirstCounterIsTaken();
    PeerIsServed();
  }

  lemma SecondCounterIsRefused()
    ensures var later := Handle(AGENT, FirstCounter());
      Judge(AsQuote(LISTED, PEER), LOWERED, SERVING, CounterOutcome(Reply(later, SecondCounter()), 1, PEER)) == Refuses
  {
    FirstCounterIsTaken();
    PeerIsServed();
    assert Violates(PriceLimit, AsQuote(AGREED, PEER), LOWERED, ConstraintsFor(AsQuote(LISTED, PEER), LOWERED), 2);
  }

  lemma RenewedCounterAgrees(key: string)
    requires key != CounterKey("r", PEER)
    ensures var later := Handle(AGENT, FirstCounter());
      var renewed := SecondCounter().(envelope := SecondCounter().envelope.(key := key));
      Judge(AsQuote(LISTED, PEER), LOWERED, SERVING, CounterOutcome(Reply(later, renewed), 1, PEER))
      == Agrees(AsQuote(LISTED.(unitPrice := 94), PEER))
  {
    FirstCounterIsTaken();
    PeerIsServed();
  }

  /** At a list price of 100 the first counter, 95, is taken. The merchant then lowers the limit to 94:
      a counter of 94 under any new key would be taken as well, under the request's own key it is judged
      by the answer of 95 and refused. */
  lemma LoweredLimitIsNotOffered(key: string)
    requires key != CounterKey("r", PEER)
    ensures var later := Handle(AGENT, FirstCounter());
      var renewed := SecondCounter().(envelope := SecondCounter().envelope.(key := key));
      && FirstCounter().envelope.message.price == 95 && SecondCounter().envelope.message.price == 94
      && Judge(AsQuote(LISTED, PEER), ASKED, SERVING, CounterOutcome(Reply(AGENT, FirstCounter()), 0, PEER)).Agrees?
      && Judge(AsQuote(LISTED, PEER), LOWERED, SERVING, CounterOutcome(Reply(later, renewed), 1, PEER)).Agrees?
      && Judge(AsQuote(LISTED, PEER), LOWERED, SERVING, CounterOutcome(Reply(later, SecondCounter()), 1, PEER)).Refuses?
  {
    FirstCounterAgrees();
    SecondCounterIsRefused();
    RenewedCounterAgrees(key);
  }
}
