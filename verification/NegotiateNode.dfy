/** The negotiate node: one pass over the candidate quotes, countering where price alone is in
    the way, until one supplier's offer passes every check. */
module NegotiateNode {
  import opened Money
  import opened Entities
  import opened Negotiation

  /** An adapter serves one supplier, or every supplier without an adapter of its own. */
  datatype Adapter = Adapter(supplierId: Option<SupplierId>, handlesAll: bool)

  /** What a supplier answers to a counter offer; Broken is an exception out of the adapter. */
  datatype CounterReply = Broken | Declined | Offered(quote: SupplierQuote)

  datatype HistoryEntry =
    | QuoteReceived(supplierId: SupplierId, unitPrice: Paise)
    | CounterOfferSent(supplierId: SupplierId, price: int, quantity: int)
    | OfferRejected(supplierId: SupplierId)
    | OfferAccepted(round: nat, supplierId: SupplierId, quoteId: string, agreedPrice: Paise)
    | OfferInvalid(supplierId: SupplierId, reasons: seq<OfferFailure>)

  datatype Outcome =
    | Raised
    | Deal(quote: SupplierQuote, history: seq<HistoryEntry>)
    | NoDeal(history: seq<HistoryEntry>)

  /** The adapter that owns the supplier, or failing that the first that handles all. */
  method FindAdapter(adapters: seq<Adapter>, supplierId: SupplierId) returns (found: Option<Adapter>)
    ensures found.None? <==> !CanServe(adapters, supplierId)
    ensures found.Some? ==> found.value in adapters
    ensures found.Some? ==>
      || found.value.supplierId == Some(supplierId)
      || (found.value.handlesAll && forall a :: a in adapters ==> a.supplierId != Some(supplierId))
  {
    for i := 0 to |adapters|
      invariant forall j :: 0 <= j < i ==> adapters[j].supplierId != Some(supplierId)
    {
      if adapters[i].supplierId == Some(supplierId) {
        return Some(adapters[i]);
      }
    }
    for i := 0 to |adapters|
      invariant forall j :: 0 <= j < i ==> !adapters[j].handlesAll
    {
      if adapters[i].handlesAll {
        return Some(adapters[i]);
      }
    }
    found := None;
  }

  predicate CanServe(adapters: seq<Adapter>, supplierId: SupplierId) {
    exists a :: a in adapters && (a.supplierId == Some(supplierId) || a.handlesAll)
  }

  function ConstraintsFor(quote: SupplierQuote, request: PurchaseRequest): Constraints {
    Constraints(ONE_UNIT, request.quantity, request.maxPrice, {quote.supplierId}, 3)
  }

  predicate SendsCounter(quote: SupplierQuote, request: PurchaseRequest, failures: seq<OfferFailure>) {
    || (failures != [] && forall f :: f in failures ==> f == PriceLimit)
    || (failures == [] && quote.unitPrice > request.targetPrice)
  }

  /** How one candidate ends: the node raises, moves on, or takes these terms. */
  datatype Verdict = Breaks | Refuses | Agrees(terms: SupplierQuote)

  function Judge(quote: SupplierQuote, request: PurchaseRequest, adapters: seq<Adapter>, reply: CounterReply): Verdict
  {
    var failures := OfferFailures(quote, request, ConstraintsFor(quote, request), 1);
    if SendsCounter(quote, request, failures) then
      if !CanServe(adapters, quote.supplierId) || reply.Broken? then Breaks
      else if reply.Declined? then Refuses
      else if OfferFailures(reply.quote, request, ConstraintsFor(quote, request), 2) != [] then Refuses
      else Agrees(reply.quote)
    else if failures != [] then Refuses
    else if !CanServe(adapters, quote.supplierId) then Breaks
    else Agrees(quote)
  }

  /** The entry for agreed terms; the round says whether the quote was above the target price. */
  function Accepted(quote: SupplierQuote, request: PurchaseRequest, terms: SupplierQuote): HistoryEntry {
    var round := if quote.unitPrice > request.targetPrice then 2 else 1;
    OfferAccepted(round, terms.supplierId, terms.quoteId, terms.unitPrice)
  }

  /** What the history gains from one candidate that did not make the node raise. */
  function Talk(quote: SupplierQuote, request: PurchaseRequest, reply: CounterReply): seq<HistoryEntry>
    requires request.Valid()
  {
    var c := ConstraintsFor(quote, request);
    var failures := OfferFailures(quote, request, c, 1);
    var received := [QuoteReceived(quote.supplierId, quote.unitPrice)];
    if SendsCounter(quote, request, failures) then
      var price := CounterPrice(quote.unitPrice, request.targetPrice, request.maxPrice);
      var sent := CounterOfferSent(quote.supplierId, price, request.quantity);
      if !reply.Offered? then received + [sent] + [OfferRejected(quote.supplierId)]
      else if OfferFailures(reply.quote, request, c, 2) != [] then
        received + [sent] + [OfferInvalid(quote.supplierId, OfferFailures(reply.quote, request, c, 2))]
      else
        received + [sent]
        + [Accepted(quote, request, reply.quote)]
    else if failures != [] then received + [OfferInvalid(quote.supplierId, failures)]
    else received
         + [Accepted(quote, request, quote)]
  }

  /** The reply to the i-th candidate's counter; a missing reply is a broken call. */
  function ReplyAt(replies: seq<CounterReply>, i: nat): CounterReply {
    if i < |replies| then replies[i] else Broken
  }

  function NegotiateFrom(candidates: seq<SupplierQuote>, i: nat, request: PurchaseRequest, adapters: seq<Adapter>,
                         replies: seq<CounterReply>, history: seq<HistoryEntry>): Outcome
    requires request.Valid()
    requires i <= |candidates|
    decreases |candidates| - i
  {
    if i == |candidates| then NoDeal(history)
    else
      var verdict := Judge(candidates[i], request, adapters, ReplyAt(replies, i));
      var talked := history + Talk(candidates[i], request, ReplyAt(replies, i));
      match verdict
      case Breaks => Raised
      case Agrees(terms) => Deal(terms, talked)
      case Refuses => NegotiateFrom(candidates, i + 1, request, adapters, replies, talked)
  }

  /** One candidate's part of the loop: the quote, and where it helps a counter offer. */
  method Approach(quote: SupplierQuote, request: PurchaseRequest, adapters: seq<Adapter>, reply: CounterReply)
    returns (verdict: Verdict, entries: seq<HistoryEntry>)
    requires request.Valid()
    ensures verdict == Judge(quote, request, adapters, reply)
    ensures !verdict.Breaks? ==> entries == Talk(quote, request, reply)
  {
    var constraints := ConstraintsFor(quote, request);
    var valid, failures := ValidateOffer(quote, request, constraints, 1);
    assert failures != [] ==> failures[0] in failures;
    var chosen := quote;
    entries := [QuoteReceived(quote.supplierId, quote.unitPrice)];
    var needsCounter := quote.unitPrice > request.targetPrice;
    if (!valid && forall f <- failures :: f == PriceLimit) || (valid && needsCounter) {
      var adapter := FindAdapter(adapters, quote.supplierId);
      if adapter == None || reply.Broken? {
        return Breaks, entries;
      }
      var price := CounterPrice(quote.unitPrice, request.targetPrice, request.maxPrice);
      entries := entries + [CounterOfferSent(quote.supplierId, price, request.quantity)];
      if reply.Declined? {
        return Refuses, entries + [OfferRejected(quote.supplierId)];
      }
      chosen := reply.quote;
      valid, failures := ValidateOffer(chosen, request, constraints, 2);
      assert failures != [] ==> failures[0] in failures;
    }
    if !valid {
      return Refuses, entries + [OfferInvalid(quote.supplierId, failures)];
    }
    assert chosen.supplierId == quote.supplierId by {
      var round := if chosen == quote then 1 else 2;
      assert !Violates(SupplierNotAllowed, chosen, request, constraints, round);
    }
    var adapter := FindAdapter(adapters, chosen.supplierId);
    if adapter == None {
      return Breaks, entries;
    }
    verdict := Agrees(chosen);
    entries := entries
      + [OfferAccepted(if needsCounter then 2 else 1, chosen.supplierId, chosen.quoteId, chosen.unitPrice)];
  }

  method Negotiate(candidates: seq<SupplierQuote>, request: PurchaseRequest, adapters: seq<Adapter>,
                   replies: seq<CounterReply>, past: seq<HistoryEntry>) returns (outcome: Outcome)
    requires request.Valid()
    ensures outcome == NegotiateFrom(candidates, 0, request, adapters, replies, past)
  {
    var history := past;
    for i := 0 to |candidates|
      invariant NegotiateFrom(candidates, 0, request, adapters, replies, past)
             == NegotiateFrom(candidates, i, request, adapters, replies, history)
    {
      var verdict, entries := Approach(candidates[i], request, adapters, ReplyAt(replies, i));
      if verdict.Breaks? {
        return Raised;
      }
      history := history + entries;
      if verdict.Agrees? {
        return Deal(verdict.terms, history);
      }
    }
    outcome := NoDeal(history);
  }

  /** A counter goes out exactly when the quote is above target and nothing but price is wrong. */
  lemma CounterIsSentExactly(quote: SupplierQuote, request: PurchaseRequest)
    requires request.Valid()
    ensures var c := ConstraintsFor(quote, request);
      SendsCounter(quote, request, OfferFailures(quote, request, c, 1)) <==>
      quote.unitPrice > request.targetPrice && forall f :: Violates(f, quote, request, c, 1) ==> f == PriceLimit
  {
    var failures := OfferFailures(quote, request, ConstraintsFor(quote, request), 1);
    if failures != [] {
      assert failures[0] in failures;
    }
  }

  /** Terms the buyer's limits allow, from the supplier that was asked. */
  ghost predicate Acceptable(terms: SupplierQuote, asked: SupplierId, request: PurchaseRequest) {
    && terms.supplierId == asked
    && terms.unitPrice <= request.maxPrice
    && ONE_UNIT <= request.quantity <= terms.available
    && terms.deliveryAt <= request.deliveryDeadline
  }

  /** Whatever the suppliers answer, terms are agreed only inside the buyer's limits, and only
      with the supplier that was asked, even when its adapter answers in another's name. */
  lemma AgreedTermsAreAcceptable(quote: SupplierQuote, request: PurchaseRequest, adapters: seq<Adapter>,
                                 reply: CounterReply)
    requires Judge(quote, request, adapters, reply).Agrees?
    ensures Acceptable(Judge(quote, request, adapters, reply).terms, quote.supplierId, request)
  {
    var terms := Judge(quote, request, adapters, reply).terms;
    var c := ConstraintsFor(quote, request);
    var round := if SendsCounter(quote, request, OfferFailures(quote, request, c, 1)) then 2 else 1;
    assert OfferFailures(terms, request, c, round) == [];
    assert !Violates(SupplierNotAllowed, terms, request, c, round) && !Violates(PriceLimit, terms, request, c, round);
    assert !Violates(QuantityOutOfBounds, terms, request, c, round)
           && !Violates(DeliveryDeadline, terms, request, c, round);
    assert !Violates(InsufficientSupplierInventory, terms, request, c, round);
  }

  /** The index of the first candidate from i on that does not refuse, or their number. */
  function FirstNonRefusal(candidates: seq<SupplierQuote>, i: nat, request: PurchaseRequest, adapters: seq<Adapter>,
                           replies: seq<CounterReply>): (k: nat)
    requires i <= |candidates|
    ensures i <= k <= |candidates|
    ensures forall j :: i <= j < k ==> Judge(candidates[j], request, adapters, ReplyAt(replies, j)).Refuses?
    ensures k < |candidates| ==> !Judge(candidates[k], request, adapters, ReplyAt(replies, k)).Refuses?
    decreases |candidates| - i
  {
    if i < |candidates| && Judge(candidates[i], request, adapters, ReplyAt(replies, i)).Refuses?
    then FirstNonRefusal(candidates, i + 1, request, adapters, replies)
    else i
  }

  /** The node takes the first candidate, in order, that does not refuse: a deal on its terms, an
      exception if it breaks, and no deal exactly when everyone refuses. */
  lemma {:induction false} FirstNonRefusalDecides(candidates: seq<SupplierQuote>, i: nat, request: PurchaseRequest,
                                                  adapters: seq<Adapter>, replies: seq<CounterReply>,
                                                  history: seq<HistoryEntry>)
    requires request.Valid() && i <= |candidates|
    ensures var outcome := NegotiateFrom(candidates, i, request, adapters, replies, history);
      var k := FirstNonRefusal(candidates, i, request, adapters, replies);
      if k == |candidates| then outcome.NoDeal?
      else match Judge(candidates[k], request, adapters, ReplyAt(replies, k))
           case Breaks => outcome.Raised?
           case Agrees(terms) => outcome.Deal? && outcome.quote == terms
           case Refuses => false
    decreases |candidates| - i
  {
    if i < |candidates| && Judge(candidates[i], request, adapters, ReplyAt(replies, i)).Refuses? {
      FirstNonRefusalDecides(candidates, i + 1, request, adapters, replies,
                             history + Talk(candidates[i], request, ReplyAt(replies, i)));
    }
  }

  lemma {:induction false} FirstNonRefusalIs(candidates: seq<SupplierQuote>, i: nat, k: nat, request: PurchaseRequest,
                                             adapters: seq<Adapter>, replies: seq<CounterReply>)
    requires i <= k < |candidates| && !Judge(candidates[k], request, adapters, ReplyAt(replies, k)).Refuses?
    requires forall j :: i <= j < k ==> Judge(candidates[j], request, adapters, ReplyAt(replies, j)).Refuses?
    ensures FirstNonRefusal(candidates, i, request, adapters, replies) == k
    decreases k - i
  {
    if i < k {
      FirstNonRefusalIs(candidates, i + 1, k, request, adapters, replies);
    }
  }

  /** Agreed terms are the last thing the history gains from their candidate. */
  lemma AgreementIsRecorded(quote: SupplierQuote, request: PurchaseRequest, adapters: seq<Adapter>, reply: CounterReply)
    requires request.Valid() && Judge(quote, request, adapters, reply).Agrees?
    ensures var talk, terms := Talk(quote, request, reply), Judge(quote, request, adapters, reply).terms;
      talk != [] && talk[|talk| - 1] == Accepted(quote, request, terms)
  {
  }

  lemma {:induction false} DealIsAcceptable(candidates: seq<SupplierQuote>, i: nat, request: PurchaseRequest,
                                            adapters: seq<Adapter>, replies: seq<CounterReply>,
                                            history: seq<HistoryEntry>)
    requires request.Valid() && i <= |candidates|
    requires NegotiateFrom(candidates, i, request, adapters, replies, history).Deal?
    ensures var deal := NegotiateFrom(candidates, i, request, adapters, replies, history);
      exists q :: q in candidates && Acceptable(deal.quote, q.supplierId, request)
    decreases |candidates| - i
  {
    var reply := ReplyAt(replies, i);
    if Judge(candidates[i], request, adapters, reply).Agrees? {
      AgreedTermsAreAcceptable(candidates[i], request, adapters, reply);
      assert candidates[i] in candidates;
    } else {
      DealIsAcceptable(candidates, i + 1, request, adapters, replies, history + Talk(candidates[i], request, reply));
    }
  }

  /** A deal is with a supplier that some adapter serves. */
  lemma {:induction false} DealIsServed(candidates: seq<SupplierQuote>, i: nat, request: PurchaseRequest,
                                        adapters: seq<Adapter>, replies: seq<CounterReply>, history: seq<HistoryEntry>)
    requires request.Valid() && i <= |candidates|
    requires NegotiateFrom(candidates, i, request, adapters, replies, history).Deal?
    ensures CanServe(adapters, NegotiateFrom(candidates, i, request, adapters, replies, history).quote.supplierId)
    decreases |candidates| - i
  {
    DealUnfolds(candidates, i, request, adapters, replies, history);
    var reply := ReplyAt(replies, i);
    if Judge(candidates[i], request, adapters, reply).Agrees? {
      AgreedTermsAreAcceptable(candidates[i], request, adapters, reply);
    } else {
      DealIsServed(candidates, i + 1, request, adapters, replies, history + Talk(candidates[i], request, reply));
    }
  }

  /** The history ends with the acceptance of these terms. */
  ghost predicate ClosesWith(history: seq<HistoryEntry>, terms: SupplierQuote) {
    && history != [] && history[|history| - 1].OfferAccepted?
    && history[|history| - 1].supplierId == terms.supplierId
    && history[|history| - 1].agreedPrice == terms.unitPrice
  }

  lemma AgreementCloses(quote: SupplierQuote, request: PurchaseRequest, adapters: seq<Adapter>, reply: CounterReply,
                        history: seq<HistoryEntry>)
    requires request.Valid() && Judge(quote, request, adapters, reply).Agrees?
    ensures ClosesWith(history + Talk(quote, request, reply), Judge(quote, request, adapters, reply).terms)
  {
    AgreementIsRecorded(quote, request, adapters, reply);
  }

  /** A deal comes from the first candidate, or from the rest after a refusal. */
  lemma DealUnfolds(candidates: seq<SupplierQuote>, i: nat, request: PurchaseRequest, adapters: seq<Adapter>,
                    replies: seq<CounterReply>, history: seq<HistoryEntry>)
    requires request.Valid() && i <= |candidates|
    requires NegotiateFrom(candidates, i, request, adapters, replies, history).Deal?
    ensures i < |candidates|
    ensures var talk, verdict := Talk(candidates[i], request, ReplyAt(replies, i)),
                                 Judge(candidates[i], request, adapters, ReplyAt(replies, i));
      NegotiateFrom(candidates, i, request, adapters, replies, history)
      == if verdict.Agrees? then Deal(verdict.terms, history + talk)
         else NegotiateFrom(candidates, i + 1, request, adapters, replies, history + talk)
  {
  }

  lemma {:induction false} DealIsRecorded(candidates: seq<SupplierQuote>, i: nat, request: PurchaseRequest,
                                          adapters: seq<Adapter>, replies: seq<CounterReply>,
                                          history: seq<HistoryEntry>)
    requires request.Valid() && i <= |candidates|
    requires NegotiateFrom(candidates, i, request, adapters, replies, history).Deal?
    ensures var deal := NegotiateFrom(candidates, i, request, adapters, replies, history);
      history <= deal.history && ClosesWith(deal.history, deal.quote)
    decreases |candidates| - i
  {
    DealUnfolds(candidates, i, request, adapters, replies, history);
    var reply := ReplyAt(replies, i);
    if Judge(candidates[i], request, adapters, reply).Agrees? {
      AgreementCloses(candidates[i], request, adapters, reply, history);
    } else {
      DealIsRecorded(candidates, i + 1, request, adapters, replies, history + Talk(candidates[i], request, reply));
    }
  }

  /** A deal is always with one of the candidates' suppliers and within the buyer's limits; the
      history only grows, and ends with the acceptance at the agreed price. */
  lemma {:induction false} DealIsWithACandidate(candidates: seq<SupplierQuote>, i: nat, request: PurchaseRequest,
                                                adapters: seq<Adapter>, replies: seq<CounterReply>,
                                                history: seq<HistoryEntry>)
    requires request.Valid() && i <= |candidates|
    requires NegotiateFrom(candidates, i, request, adapters, replies, history).Deal?
    ensures var deal := NegotiateFrom(candidates, i, request, adapters, replies, history);
      && (exists q :: q in candidates && Acceptable(deal.quote, q.supplierId, request))
      && history <= deal.history
      && deal.history != [] && deal.history[|deal.history| - 1].OfferAccepted?
      && deal.history[|deal.history| - 1].supplierId == deal.quote.supplierId
      && deal.history[|deal.history| - 1].agreedPrice == deal.quote.unitPrice
  {
    DealIsAcceptable(candidates, i, request, adapters, replies, history);
    DealIsRecorded(candidates, i, request, adapters, replies, history);
  }
}
