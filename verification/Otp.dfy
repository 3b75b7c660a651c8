/** A one-time-code challenge: verification, resends and the registration that uses it up. */
module Otp {
  import opened Entities

  datatype Purpose = Login | Registration

  datatype Limits = Limits(maxAttempts: nat, maxResends: nat, expiry: nat, resendDelay: nat)

  datatype Challenge = Challenge(
    purpose: Purpose,
    attempts: nat,
    resends: nat,
    expiresAt: Instant,
    resendAvailableAt: Instant,
    verifiedAt: Option<Instant>,
    consumedAt: Option<Instant>)

  datatype Result = Accepted | RegistrationRequired | Resent | Registered | Invalid | Limited | TooEarly

  predicate Closed(c: Challenge, now: Instant) {
    c.consumedAt.Some? || c.verifiedAt.Some? || c.expiresAt <= now
  }

  /** Whether a verification compares the code at all. */
  predicate Checks(c: Challenge, l: Limits, now: Instant) {
    !Closed(c, now) && c.attempts < l.maxAttempts
  }

  /** correct: the code matches; known: the identifier belongs to an active user. An invalid code
      is an error whose effects are committed all the same. */
  function Verified(c: Challenge, l: Limits, now: Instant, correct: bool, known: bool): Challenge {
    if Closed(c, now) then c
    else if c.attempts >= l.maxAttempts then c.(consumedAt := Some(now))
    else if !correct then
      c.(attempts := c.attempts + 1, consumedAt := if c.attempts + 1 >= l.maxAttempts then Some(now) else c.consumedAt)
    else
      c.(attempts := c.attempts + 1, verifiedAt := Some(now),
         consumedAt := if known || c.purpose != Registration then Some(now) else c.consumedAt)
  }

  predicate Resends(c: Challenge, l: Limits, now: Instant) {
    !Closed(c, now) && c.resends < l.maxResends && c.resendAvailableAt <= now
  }

  function AfterResend(c: Challenge, l: Limits, now: Instant): Challenge {
    if !Resends(c, l, now) then c
    else c.(attempts := 0, resends := c.resends + 1, expiresAt := now + l.expiry,
            resendAvailableAt := now + l.resendDelay)
  }

  predicate Registers(c: Challenge) {
    c.verifiedAt.Some? && c.consumedAt.None? && c.purpose == Registration
  }

  /** The part of a registration that uses the challenge; whatever else it checks has passed. */
  function AfterRegister(c: Challenge, now: Instant): Challenge {
    if Registers(c) then c.(consumedAt := Some(now)) else c
  }

  class OtpChallenge {
    const limits: Limits
    const purpose: Purpose
    var attempts: nat
    var resends: nat
    var expiresAt: Instant
    var resendAvailableAt: Instant
    var verifiedAt: Option<Instant>
    var consumedAt: Option<Instant>

    function View(): Challenge
      reads this
    {
      Challenge(purpose, attempts, resends, expiresAt, resendAvailableAt, verifiedAt, consumedAt)
    }

    constructor (purpose: Purpose, limits: Limits, now: Instant)
      ensures View() == New(purpose, limits, now) && this.limits == limits
    {
      this.purpose, this.limits := purpose, limits;
      attempts, resends := 0, 0;
      expiresAt, resendAvailableAt := now + limits.expiry, now + limits.resendDelay;
      verifiedAt, consumedAt := None, None;
    }

    method Verify(now: Instant, correct: bool, known: bool) returns (result: Result)
      modifies this
      ensures View() == Verified(old(View()), limits, now, correct, known)
      ensures result == Accepted || result == RegistrationRequired || result == Invalid
      ensures result == Accepted <==> Checks(old(View()), limits, now) && correct && known
      ensures result == RegistrationRequired <==>
                Checks(old(View()), limits, now) && correct && !known && purpose == Registration
    {
      if consumedAt.Some? || verifiedAt.Some? || expiresAt <= now {
        return Invalid;
      }
      if attempts >= limits.maxAttempts {
        consumedAt := Some(now);
        return Invalid;
      }
      attempts := attempts + 1;
      if !correct {
        if attempts >= limits.maxAttempts {
          consumedAt := Some(now);
        }
        return Invalid;
      }
      verifiedAt := Some(now);
      if known {
        consumedAt := Some(now);
        return Accepted;
      }
      if purpose != Registration {
        consumedAt := Some(now);
        return Invalid;
      }
      result := RegistrationRequired;
    }

    method Resend(now: Instant) returns (result: Result)
      modifies this
      ensures View() == AfterResend(old(View()), limits, now)
      ensures result == Resent <==> Resends(old(View()), limits, now)
    {
      if consumedAt.Some? || verifiedAt.Some? || expiresAt <= now {
        return Invalid;
      }
      if resends >= limits.maxResends {
        return Limited;
      }
      if resendAvailableAt > now {
        return TooEarly;
      }
      expiresAt := now + limits.expiry;
      resendAvailableAt := now + limits.resendDelay;
      resends := resends + 1;
      attempts := 0;
      result := Resent;
    }

    method Register(now: Instant) returns (result: Result)
      modifies this
      ensures View() == AfterRegister(old(View()), now)
      ensures result == Registered <==> Registers(old(View()))
    {
      if verifiedAt.None? || consumedAt.Some? || purpose != Registration {
        return Invalid;
      }
      consumedAt := Some(now);
      result := Registered;
    }
  }

  // ----- runs -----

  function New(purpose: Purpose, l: Limits, now: Instant): Challenge {
    Challenge(purpose, 0, 0, now + l.expiry, now + l.resendDelay, None, None)
  }

  datatype Event =
    | VerifyCode(now: Instant, correct: bool, known: bool)
    | ResendCode(now: Instant)
    | RegisterWith(now: Instant)

  function Step(c: Challenge, l: Limits, e: Event): Challenge {
    match e
    case VerifyCode(now, correct, known) => Verified(c, l, now, correct, known)
    case ResendCode(now) => AfterResend(c, l, now)
    case RegisterWith(now) => AfterRegister(c, now)
  }

  function Run(c: Challenge, l: Limits, events: seq<Event>): Challenge {
    if events == [] then c else Step(Run(c, l, events[..|events| - 1]), l, events[|events| - 1])
  }

  /** What an event did, of the three things that are bounded. */
  predicate ComparesCode(c: Challenge, l: Limits, e: Event) { e.VerifyCode? && Checks(c, l, e.now) }
  predicate MatchesCode(c: Challenge, l: Limits, e: Event) { ComparesCode(c, l, e) && e.correct }
  predicate UsesUp(c: Challenge, e: Event) { e.RegisterWith? && Registers(c) }

  function Comparisons(c: Challenge, l: Limits, events: seq<Event>): nat {
    if events == [] then 0
    else
      var earlier := events[..|events| - 1];
      Comparisons(c, l, earlier) + (if ComparesCode(Run(c, l, earlier), l, events[|events| - 1]) then 1 else 0)
  }

  function CodeMatches(c: Challenge, l: Limits, events: seq<Event>): nat {
    if events == [] then 0
    else
      var earlier := events[..|events| - 1];
      CodeMatches(c, l, earlier) + (if MatchesCode(Run(c, l, earlier), l, events[|events| - 1]) then 1 else 0)
  }

  function Registrations(c: Challenge, l: Limits, events: seq<Event>): nat {
    if events == [] then 0
    else
      var earlier := events[..|events| - 1];
      Registrations(c, l, earlier) + (if UsesUp(Run(c, l, earlier), events[|events| - 1]) then 1 else 0)
  }

  /** Resets only happen below the limit, so each costs at most maxAttempts - 1 comparisons. */
  lemma {:induction false} CodesAreBounded(purpose: Purpose, l: Limits, created: Instant, events: seq<Event>)
    requires l.maxAttempts >= 1
    ensures var c := New(purpose, l, created);
      var after := Run(c, l, events);
      && Comparisons(c, l, events) <= (l.maxAttempts - 1) * after.resends + after.attempts
      && after.attempts <= l.maxAttempts && after.resends <= l.maxResends
      && (after.attempts == l.maxAttempts ==> after.verifiedAt.Some? || after.consumedAt.Some?)
      && CodeMatches(c, l, events) == (if after.verifiedAt.Some? then 1 else 0)
      && Registrations(c, l, events) <= (if after.verifiedAt.Some? && after.consumedAt.Some? then 1 else 0)
      && after.purpose == purpose
      && after.expiresAt <= created + (after.resends + 1) * l.expiry
  {
    if events != [] {
      var c, earlier, e := New(purpose, l, created), events[..|events| - 1], events[|events| - 1];
      CodesAreBounded(purpose, l, created, earlier);
      var before := Run(c, l, earlier);
      assert (l.maxAttempts - 1) * (before.resends + 1) == (l.maxAttempts - 1) * before.resends + (l.maxAttempts - 1);
      assert (before.resends + 2) * l.expiry == (before.resends + 1) * l.expiry + l.expiry;
    }
  }

  /** Over any sequence of calls at any times: at most (maxAttempts - 1) * maxResends + maxAttempts
      codes are compared, at most one is found right, and at most one registration follows. */
  lemma {:induction false} ChallengeLimits(purpose: Purpose, l: Limits, created: Instant, events: seq<Event>)
    requires l.maxAttempts >= 1
    ensures var c := New(purpose, l, created);
      && Comparisons(c, l, events) <= (l.maxAttempts - 1) * l.maxResends + l.maxAttempts
      && CodeMatches(c, l, events) <= 1
      && Registrations(c, l, events) <= 1
      && Run(c, l, events).expiresAt <= created + (l.maxResends + 1) * l.expiry
  {
    var after := Run(New(purpose, l, created), l, events);
    assert after.resends <= l.maxResends by { CodesAreBounded(purpose, l, created, events); }
    assert (l.maxAttempts - 1) * after.resends <= (l.maxAttempts - 1) * l.maxResends by {
      MulIsMonotone(after.resends, l.maxResends, l.maxAttempts - 1);
    }
    assert (after.resends + 1) * l.expiry <= (l.maxResends + 1) * l.expiry by {
      MulIsMonotone(after.resends + 1, l.maxResends + 1, l.expiry);
    }
    CodesAreBounded(purpose, l, created, events);
  }

  lemma MulIsMonotone(a: nat, b: nat, k: nat)
    requires a <= b
    ensures k * a <= k * b && a * k <= b * k
  {
    assert b == a + (b - a);
    assert b * k == a * k + (b - a) * k;
  }

  /** A challenge that has been consumed, by success or by too many wrong codes, is never revived:
      no call changes it any more. */
  lemma {:induction false} ConsumedForGood(c: Challenge, l: Limits, events: seq<Event>)
    requires c.consumedAt.Some?
    ensures Run(c, l, events) == c
  {
    if events != [] {
      ConsumedForGood(c, l, events[..|events| - 1]);
    }
  }

  /** The bound on comparisons is reached: wrong codes up to one below the limit before every
      resend, and up to the limit after the last. */
  function Waste(l: Limits, n: nat, at: Instant): seq<Event> {
    if n == 0 then [] else Waste(l, n - 1, at) + [VerifyCode(at, false, false)]
  }

  lemma {:induction false} WastedCodesAreCompared(c: Challenge, l: Limits, before: seq<Event>, n: nat, at: Instant)
    requires var s := Run(c, l, before);
      s.consumedAt.None? && s.verifiedAt.None? && at < s.expiresAt && s.attempts == 0 && n < l.maxAttempts
    ensures Comparisons(c, l, before + Waste(l, n, at)) == Comparisons(c, l, before) + n
    ensures Run(c, l, before + Waste(l, n, at)) == Run(c, l, before).(attempts := n)
  {
    if n == 0 {
      assert before + Waste(l, 0, at) == before;
    } else {
      WastedCodesAreCompared(c, l, before, n - 1, at);
      var events := before + Waste(l, n, at);
      assert events[..|events| - 1] == before + Waste(l, n - 1, at);
    }
  }

  /** The k-th round happens when the (k-1)-st resend has become available. */
  function Rounds(l: Limits, k: nat): seq<Event>
    requires l.maxAttempts >= 1
  {
    if k == 0 then []
    else Rounds(l, k - 1) + Waste(l, l.maxAttempts - 1, k * l.resendDelay) + [ResendCode(k * l.resendDelay)]
  }

  /** The challenge after k rounds. */
  function AfterRounds(purpose: Purpose, l: Limits, k: nat): Challenge {
    New(purpose, l, 0).(resends := k, expiresAt := k * l.resendDelay + l.expiry,
                        resendAvailableAt := (k + 1) * l.resendDelay)
  }

  /** One round: wrong codes up to one below the limit, then the resend that has become available. */
  lemma RoundCounts(c: Challenge, l: Limits, before: seq<Event>, at: Instant)
    requires l.maxAttempts >= 1
    requires var s := Run(c, l, before);
      && s.consumedAt.None? && s.verifiedAt.None? && at < s.expiresAt && s.attempts == 0
      && s.resends < l.maxResends && s.resendAvailableAt <= at
    ensures var events := before + Waste(l, l.maxAttempts - 1, at) + [ResendCode(at)];
      && Comparisons(c, l, events) == Comparisons(c, l, before) + (l.maxAttempts - 1)
      && Run(c, l, events) == AfterResend(Run(c, l, before), l, at)
  {
    var wasted := before + Waste(l, l.maxAttempts - 1, at);
    assert Comparisons(c, l, wasted) == Comparisons(c, l, before) + (l.maxAttempts - 1)
        && Run(c, l, wasted) == Run(c, l, before).(attempts := l.maxAttempts - 1) by {
      WastedCodesAreCompared(c, l, before, l.maxAttempts - 1, at);
    }
    assert (wasted + [ResendCode(at)])[..|wasted|] == wasted;
  }

  lemma NextRound(n: nat, k: nat)
    requires k > 0
    ensures (k - 1) * n + n == k * n && n * (k - 1) + n == n * k && k * n + n == (k + 1) * n
  {
  }

  lemma {:induction false} RoundsCount(purpose: Purpose, l: Limits, k: nat)
    requires l.maxAttempts >= 1 && k <= l.maxResends && l.resendDelay < l.expiry
    ensures var c := New(purpose, l, 0);
      Comparisons(c, l, Rounds(l, k)) == (l.maxAttempts - 1) * k
      && Run(c, l, Rounds(l, k)) == AfterRounds(purpose, l, k)
  {
    if k > 0 {
      RoundsCount(purpose, l, k - 1);
      NextRound(l.resendDelay, k);
      NextRound(l.maxAttempts - 1, k);
      RoundCounts(New(purpose, l, 0), l, Rounds(l, k - 1), k * l.resendDelay);
    }
  }

  lemma OneMoreWrongCode(c: Challenge, l: Limits, events: seq<Event>, at: Instant)
    requires Checks(Run(c, l, events), l, at)
    ensures Comparisons(c, l, events + [VerifyCode(at, false, false)]) == Comparisons(c, l, events) + 1
  {
    assert (events + [VerifyCode(at, false, false)])[..|events|] == events;
  }

  /** From a fresh round, as many wrong codes as the limit allows. */
  lemma FullRound(c: Challenge, l: Limits, events: seq<Event>, at: Instant)
    requires l.maxAttempts >= 1
    requires var s := Run(c, l, events); s.consumedAt.None? && s.verifiedAt.None? && at < s.expiresAt && s.attempts == 0
    ensures Comparisons(c, l, events + Waste(l, l.maxAttempts - 1, at) + [VerifyCode(at, false, false)])
         == Comparisons(c, l, events) + l.maxAttempts
  {
    var wasted := events + Waste(l, l.maxAttempts - 1, at);
    assert Comparisons(c, l, wasted) == Comparisons(c, l, events) + l.maxAttempts - 1
           && Checks(Run(c, l, wasted), l, at) by {
      WastedCodesAreCompared(c, l, events, l.maxAttempts - 1, at);
    }
    OneMoreWrongCode(c, l, wasted, at);
  }

  lemma BoundIsReached(purpose: Purpose, l: Limits)
    requires l.maxAttempts >= 1 && l.resendDelay < l.expiry
    ensures exists events ::
              Comparisons(New(purpose, l, 0), l, events) == (l.maxAttempts - 1) * l.maxResends + l.maxAttempts
  {
    RoundsCount(purpose, l, l.maxResends);
    FullRound(New(purpose, l, 0), l, Rounds(l, l.maxResends), l.maxResends * l.resendDelay);
  }
}
