/** The sliding one-hour limit on one-time-code requests, per identifier and per address. */
module RateLimit {
  import opened Entities

  const WINDOW := 3600
  const PER_IDENTIFIER := 5
  const PER_ADDRESS := 20

  /** One stored challenge; the digests are taken as injective. createdAt is the database's clock. */
  datatype Entry = Entry(identifier: string, address: string, createdAt: Instant)

  /** What a count looks at. */
  datatype Subject = Identifier(name: string) | Address(ip: string)

  predicate Concerns(e: Entry, s: Subject) {
    match s
    case Identifier(name) => e.identifier == name
    case Address(ip) => e.address == ip
  }

  function Limit(s: Subject): nat { if s.Identifier? then PER_IDENTIFIER else PER_ADDRESS }

  /** The stored challenges of a subject with from <= created_at <= to. */
  function Count(log: seq<Entry>, s: Subject, from: int, to: int): nat {
    if log == [] then 0
    else
      var last := log[|log| - 1];
      Count(log[..|log| - 1], s, from, to) + (if Concerns(last, s) && from <= last.createdAt <= to then 1 else 0)
  }

  /** The same with no upper end, as the service counts. */
  function CountSince(log: seq<Entry>, s: Subject, from: int): nat {
    if log == [] then 0
    else
      var last := log[|log| - 1];
      CountSince(log[..|log| - 1], s, from) + (if Concerns(last, s) && from <= last.createdAt then 1 else 0)
  }

  predicate Allowed(log: seq<Entry>, identifier: string, address: string, now: Instant) {
    && CountSince(log, Identifier(identifier), now - WINDOW) < PER_IDENTIFIER
    && CountSince(log, Address(address), now - WINDOW) < PER_ADDRESS
  }

  /** A request counts back from the service's clock; its row, if stored, bears the database's. */
  datatype OtpRequest = OtpRequest(entry: Entry, now: Instant)

  function After(log: seq<Entry>, r: OtpRequest): seq<Entry> {
    if Allowed(log, r.entry.identifier, r.entry.address, r.now) then log + [r.entry] else log
  }

  class OtpRequests {
    var log: seq<Entry>

    constructor ()
      ensures log == []
    {
      log := [];
    }

    method Request(identifier: string, address: string, now: Instant, createdAt: Instant) returns (accepted: bool)
      modifies this
      ensures log == After(old(log), OtpRequest(Entry(identifier, address, createdAt), now))
      ensures accepted <==> |log| == |old(log)| + 1
    {
      var identifierCount := CountRows(Identifier(identifier), now - WINDOW);
      var addressCount := CountRows(Address(address), now - WINDOW);
      if identifierCount >= PER_IDENTIFIER || addressCount >= PER_ADDRESS {
        return false;
      }
      log := log + [Entry(identifier, address, createdAt)];
      accepted := true;
    }

    /** select count(...) where created_at >= window */
    method CountRows(s: Subject, from: int) returns (count: nat)
      ensures count == CountSince(log, s, from)
    {
      count := 0;
      for i := 0 to |log|
        invariant count == CountSince(log[..i], s, from)
      {
        assert log[..i + 1][..i] == log[..i];
        if Concerns(log[i], s) && from <= log[i].createdAt {
          count := count + 1;
        }
      }
      assert log[..|log|] == log;
    }
  }

  function Run(requests: seq<OtpRequest>): seq<Entry> {
    if requests == [] then [] else After(Run(requests[..|requests| - 1]), requests[|requests| - 1])
  }

  lemma {:induction false} CountIsWithinCountSince(log: seq<Entry>, s: Subject, from: int, to: int, since: int)
    requires since <= from
    ensures Count(log, s, from, to) <= CountSince(log, s, since)
  {
    if log != [] {
      CountIsWithinCountSince(log[..|log| - 1], s, from, to, since);
    }
  }

  /** Storing one more challenge keeps the limit in every interval that is shorter than the hour by
      at least as much as the database's clock lags behind. */
  lemma AfterKeepsLimit(log: seq<Entry>, r: OtpRequest, s: Subject, from: int, lag: nat)
    requires r.now <= r.entry.createdAt + lag
    requires Count(log, s, from, from + WINDOW - lag) <= Limit(s)
    ensures Count(After(log, r), s, from, from + WINDOW - lag) <= Limit(s)
  {
    if Allowed(log, r.entry.identifier, r.entry.address, r.now) {
      assert (log + [r.entry])[..|log|] == log;
      if Concerns(r.entry, s) && from <= r.entry.createdAt <= from + WINDOW - lag {
        CountIsWithinCountSince(log, s, from, from + WINDOW - lag, r.now - WINDOW);
      }
    }
  }

  /** No interval of an hour less the lag, wherever it lies, ever holds more stored challenges of one
      identifier or of one address than the limit; without a lag, no closed hour does. Requests are
      served one after another; the clocks need not be monotone, since a count has no upper end and
      so sees later rows as well. */
  lemma {:induction false} NoHourIsOverfull(requests: seq<OtpRequest>, s: Subject, from: int, lag: nat)
    requires forall r :: r in requests ==> r.now <= r.entry.createdAt + lag
    ensures Count(Run(requests), s, from, from + WINDOW - lag) <= Limit(s)
  {
    if requests != [] {
      assert requests == requests[..|requests| - 1] + [requests[|requests| - 1]];
      NoHourIsOverfull(requests[..|requests| - 1], s, from, lag);
      AfterKeepsLimit(Run(requests[..|requests| - 1]), requests[|requests| - 1], s, from, lag);
    }
  }

  // Five challenges at once, and a sixth that is dated so far before its window was taken.
  const EARLY := OtpRequest(Entry("a", "x", 0), 0)

  function Late(lag: nat): OtpRequest
    requires lag <= WINDOW
  {
    OtpRequest(Entry("a", "x", WINDOW + 1 - lag), WINDOW + 1)
  }

  function Burst(n: nat): (requests: seq<OtpRequest>)
    ensures forall r :: r in requests ==> r == EARLY
  {
    if n == 0 then [] else Burst(n - 1) + [EARLY]
  }

  function Copies(e: Entry, n: nat): (log: seq<Entry>)
    ensures |log| == n
  {
    if n == 0 then [] else Copies(e, n - 1) + [e]
  }

  lemma {:induction false} CopiesCount(e: Entry, n: nat, s: Subject, from: int, to: int)
    ensures Count(Copies(e, n), s, from, to) == if Concerns(e, s) && from <= e.createdAt <= to then n else 0
    ensures CountSince(Copies(e, n), s, from) == if Concerns(e, s) && from <= e.createdAt then n else 0
  {
    if n > 0 {
      CopiesCount(e, n - 1, s, from, to);
      assert Copies(e, n)[..n - 1] == Copies(e, n - 1);
    }
  }

  lemma {:induction false} BurstIsStored(n: nat)
    requires n <= PER_IDENTIFIER
    ensures Run(Burst(n)) == Copies(EARLY.entry, n)
  {
    if n > 0 {
      BurstIsStored(n - 1);
      assert Burst(n)[..|Burst(n)| - 1] == Burst(n - 1);
      CopiesCount(EARLY.entry, n - 1, Identifier("a"), -WINDOW, 0);
      CopiesCount(EARLY.entry, n - 1, Address("x"), -WINDOW, 0);
    }
  }

  /** The lag matters, and no more than that: for every lag up to an hour, a closed interval that is
      one second longer than an hour less the lag can hold six. */
  lemma LagOverfillsAnHour(lag: nat)
    requires 1 <= lag <= WINDOW
    ensures forall r :: r in Burst(5) + [Late(lag)] ==> r.now <= r.entry.createdAt + lag
    ensures Count(Run(Burst(5) + [Late(lag)]), Identifier("a"), 0, WINDOW - lag + 1) == PER_IDENTIFIER + 1
  {
    BurstIsStored(5);
    var log, late := Run(Burst(5)), Late(lag);
    CopiesCount(EARLY.entry, 5, Identifier("a"), 1, 0);
    CopiesCount(EARLY.entry, 5, Address("x"), 1, 0);
    CopiesCount(EARLY.entry, 5, Identifier("a"), 0, WINDOW - lag + 1);
    assert (Burst(5) + [late])[..|Burst(5)|] == Burst(5);
    assert After(log, late) == log + [late.entry] && (log + [late.entry])[..|log|] == log;
  }

  lemma {:induction false} CountSinceStopsAtTheNewest(log: seq<Entry>, s: Subject, from: int, to: int)
    requires forall e :: e in log ==> e.createdAt <= to
    ensures CountSince(log, s, from) == Count(log, s, from, to)
  {
    if log != [] {
      CountSinceStopsAtTheNewest(log[..|log| - 1], s, from, to);
    }
  }

  lemma {:induction false} RunStoresOnlyRequests(requests: seq<OtpRequest>, latest: Instant)
    requires forall r :: r in requests ==> r.entry.createdAt <= latest
    ensures forall e :: e in Run(requests) ==> e.createdAt <= latest
  {
    if requests != [] {
      assert requests == requests[..|requests| - 1] + [requests[|requests| - 1]];
      RunStoresOnlyRequests(requests[..|requests| - 1], latest);
    }
  }

  /** When no row is dated later than the window is taken, a request is refused exactly when the hour
      that ends with it holds at least the limit of its identifier or of its address; and without a
      lag it never holds more. */
  lemma RefusedExactlyInAFullHour(requests: seq<OtpRequest>, identifier: string, address: string, now: Instant)
    requires forall r :: r in requests ==> r.entry.createdAt <= now
    ensures !Allowed(Run(requests), identifier, address, now) <==>
      || Count(Run(requests), Identifier(identifier), now - WINDOW, now) >= PER_IDENTIFIER
      || Count(Run(requests), Address(address), now - WINDOW, now) >= PER_ADDRESS
    ensures (forall r :: r in requests ==> r.now <= r.entry.createdAt) ==>
      && Count(Run(requests), Identifier(identifier), now - WINDOW, now) <= PER_IDENTIFIER
      && Count(Run(requests), Address(address), now - WINDOW, now) <= PER_ADDRESS
  {
    RunStoresOnlyRequests(requests, now);
    CountSinceStopsAtTheNewest(Run(requests), Identifier(identifier), now - WINDOW, now);
    CountSinceStopsAtTheNewest(Run(requests), Address(address), now - WINDOW, now);
    if forall r :: r in requests ==> r.now <= r.entry.createdAt {
      NoHourIsOverfull(requests, Identifier(identifier), now - WINDOW, 0);
      NoHourIsOverfull(requests, Address(address), now - WINDOW, 0);
    }
  }
}
