/** Gathering quotes from every adapter and ordering them by price, then delivery. */
module SupplierTools {
  import opened Entities

  /** What one adapter's discovery does: Unavailable covers the two errors that are skipped. */
  datatype DiscoverReply = Quotes(quotes: seq<SupplierQuote>) | Unavailable | Crashed

  predicate AtMost(a: SupplierQuote, b: SupplierQuote) {
    a.unitPrice < b.unitPrice || (a.unitPrice == b.unitPrice && a.deliveryAt <= b.deliveryAt)
  }

  ghost predicate Ordered(quotes: seq<SupplierQuote>) {
    forall i, j :: 0 <= i < j < |quotes| ==> AtMost(quotes[i], quotes[j])
  }

  /** How many leading quotes come before a new one, ties included, which keeps the sort stable. */
  function Position(quote: SupplierQuote, quotes: seq<SupplierQuote>): (k: nat)
    ensures k <= |quotes|
    ensures forall i :: 0 <= i < k ==> AtMost(quotes[i], quote)
    ensures k < |quotes| ==> !AtMost(quotes[k], quote)
  {
    if quotes == [] || !AtMost(quotes[0], quote) then 0 else 1 + Position(quote, quotes[1..])
  }

  function Insert(quote: SupplierQuote, quotes: seq<SupplierQuote>): seq<SupplierQuote> {
    var k := Position(quote, quotes);
    quotes[..k] + [quote] + quotes[k..]
  }

  lemma InsertKeepsOrder(quote: SupplierQuote, quotes: seq<SupplierQuote>)
    requires Ordered(quotes)
    ensures Ordered(Insert(quote, quotes))
  {
    var k, r := Position(quote, quotes), Insert(quote, quotes);
    forall i, j | 0 <= i < j < |r|
      ensures AtMost(r[i], r[j])
    {
      if j < k {
        assert AtMost(quotes[i], quotes[j]);
      } else if i < k < j {
        assert AtMost(quotes[i], quotes[j - 1]);
      } else if k <= i {
        assert k < j - 1 ==> AtMost(quotes[k], quotes[j - 1]);
        assert k < i ==> AtMost(quotes[i - 1], quotes[j - 1]);
      }
    }
  }

  lemma InsertAddsOne(quote: SupplierQuote, quotes: seq<SupplierQuote>)
    ensures multiset(Insert(quote, quotes)) == multiset(quotes) + multiset{quote}
  {
    var k := Position(quote, quotes);
    assert quotes == quotes[..k] + quotes[k..];
  }

  /** sorted(..., key=(unit_price, delivery_at)) */
  function SortQuotes(quotes: seq<SupplierQuote>): seq<SupplierQuote> {
    if quotes == [] then []
    else Insert(quotes[|quotes| - 1], SortQuotes(quotes[..|quotes| - 1]))
  }

  lemma {:induction false} SortIsAnOrderedPermutation(quotes: seq<SupplierQuote>)
    ensures Ordered(SortQuotes(quotes)) && multiset(SortQuotes(quotes)) == multiset(quotes)
  {
    if quotes != [] {
      var last := |quotes| - 1;
      SortIsAnOrderedPermutation(quotes[..last]);
      InsertKeepsOrder(quotes[last], SortQuotes(quotes[..last]));
      InsertAddsOne(quotes[last], SortQuotes(quotes[..last]));
      assert quotes == quotes[..last] + [quotes[last]];
    }
  }

  /** Every quote of the adapters that answered, in adapter order. */
  function Answered(replies: seq<DiscoverReply>): seq<SupplierQuote> {
    if replies == [] then []
    else
      var last := |replies| - 1;
      Answered(replies[..last]) + (if replies[last].Quotes? then replies[last].quotes else [])
  }

  /** None is an exception that discovery does not skip. */
  function Collected(replies: seq<DiscoverReply>): Option<seq<SupplierQuote>> {
    if Crashed in replies then None else Some(SortQuotes(Answered(replies)))
  }

  method CollectQuotes(replies: seq<DiscoverReply>) returns (quotes: Option<seq<SupplierQuote>>)
    ensures quotes == Collected(replies)
    ensures quotes.Some? ==> Ordered(quotes.value) && multiset(quotes.value) == multiset(Answered(replies))
  {
    var all := [];
    for i := 0 to |replies|
      invariant Crashed !in replies[..i]
      invariant all == Answered(replies[..i])
    {
      assert replies[..i + 1][..i] == replies[..i];
      match replies[i]
      case Crashed => return None;
      case Unavailable =>
      case Quotes(quotes) => all := all + quotes;
    }
    assert replies[..|replies|] == replies;
    quotes := Some(SortQuotes(all));
    SortIsAnOrderedPermutation(all);
  }
}
