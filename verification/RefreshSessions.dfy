/** Refresh tokens: each refresh revokes the presented session and replaces it by a new one. */
module RefreshSessions {
  import opened Entities

  type SessionId = nat  // position in the table, which only grows

  /** The token itself stands for its digest, which is taken as injective. */
  datatype Session = Session(user: nat, token: nat, expiresAt: Instant, revoked: bool, replacedBy: Option<SessionId>)

  type Table = seq<Session>

  function IndexOfToken(t: Table, token: nat): (found: Option<SessionId>)
    ensures found.Some? ==> found.value < |t| && t[found.value].token == token
    ensures found.None? ==> forall s :: s in t ==> s.token != token
  {
    if t == [] then None
    else if t[|t| - 1].token == token then Some(|t| - 1)
    else IndexOfToken(t[..|t| - 1], token)
  }

  /** A new token is fresh, as a random draw is and as the unique digest column enforces. */
  predicate FreshToken(t: Table, token: nat) { IndexOfToken(t, token).None? }

  function AfterIssue(t: Table, user: nat, token: nat, expiresAt: Instant): Table {
    if FreshToken(t, token) then t + [Session(user, token, expiresAt, false, None)] else t
  }

  /** userValid: the user still exists, is active and has not changed merchant. */
  predicate Refreshes(t: Table, presented: nat, next: nat, now: Instant, userValid: bool) {
    && IndexOfToken(t, presented).Some?
    && (var row := t[IndexOfToken(t, presented).value]; !row.revoked && now < row.expiresAt)
    && userValid
    && FreshToken(t, next)
  }

  function AfterRefresh(t: Table, presented: nat, next: nat, now: Instant, expiresAt: Instant, userValid: bool): Table {
    if !Refreshes(t, presented, next, now, userValid) then t
    else
      var id := IndexOfToken(t, presented).value;
      t[id := t[id].(revoked := true, replacedBy := Some(|t|))] + [Session(t[id].user, next, expiresAt, false, None)]
  }

  function AfterRevoke(t: Table, id: SessionId): Table {
    if id < |t| then t[id := t[id].(revoked := true)] else t
  }

  class SessionService {
    const lifetime: nat
    var sessions: Table

    constructor (lifetime: nat)
      ensures sessions == [] && this.lifetime == lifetime
    {
      this.lifetime := lifetime;
      sessions := [];
    }

    /** token is the random value drawn. */
    method Issue(user: nat, token: nat, now: Instant)
      requires FreshToken(sessions, token)
      modifies this
      ensures sessions == AfterIssue(old(sessions), user, token, now + lifetime)
    {
      sessions := sessions + [Session(user, token, now + lifetime, false, None)];
    }

    method Refresh(presented: nat, next: nat, now: Instant, userValid: bool) returns (refreshed: bool)
      requires FreshToken(sessions, next)
      modifies this
      ensures sessions == AfterRefresh(old(sessions), presented, next, now, now + lifetime, userValid)
      ensures refreshed == Refreshes(old(sessions), presented, next, now, userValid)
    {
      var found := IndexOfToken(sessions, presented);
      if found == None {
        return false;
      }
      var id := found.value;
      if sessions[id].revoked || sessions[id].expiresAt <= now || !userValid {
        return false;
      }
      sessions := sessions[id := sessions[id].(revoked := true)];
      SameTokens(old(sessions), sessions, next);
      Issue(sessions[id].user, next, now);
      var replacement := IndexOfToken(sessions, next);
      sessions := sessions[id := sessions[id].(replacedBy := replacement)];
      refreshed := true;
    }

    method Revoke(id: SessionId)
      modifies this
      ensures sessions == AfterRevoke(old(sessions), id)
    {
      if id < |sessions| && !sessions[id].revoked {
        sessions := sessions[id := sessions[id].(revoked := true)];
      }
    }

    method RevokeToken(token: nat)
      modifies this
      ensures sessions ==
        if IndexOfToken(old(sessions), token).None? then old(sessions)
        else AfterRevoke(old(sessions), IndexOfToken(old(sessions), token).value)
    {
      var found := IndexOfToken(sessions, token);
      if found.Some? {
        Revoke(found.value);
      }
    }
  }

  lemma {:induction false} SameTokens(t: Table, u: Table, token: nat)
    requires |t| == |u| && forall i :: 0 <= i < |t| ==> t[i].token == u[i].token
    ensures IndexOfToken(t, token) == IndexOfToken(u, token)
  {
    if t != [] {
      SameTokens(t[..|t| - 1], u[..|u| - 1], token);
    }
  }

  // ----- runs -----

  datatype Event =
    | Login(user: nat, issued: nat, until: Instant)
    | Refresh(presented: nat, next: nat, now: Instant, expiresAt: Instant, userValid: bool)
    | Revoke(id: SessionId)
    | RevokeToken(revoked: nat)

  function Step(t: Table, e: Event): Table {
    match e
    case Login(user, token, expiresAt) => AfterIssue(t, user, token, expiresAt)
    case Refresh(presented, next, now, expiresAt, userValid) =>
      AfterRefresh(t, presented, next, now, expiresAt, userValid)
    case Revoke(id) => AfterRevoke(t, id)
    case RevokeToken(token) => if IndexOfToken(t, token).Some? then AfterRevoke(t, IndexOfToken(t, token).value) else t
  }

  function Run(t: Table, events: seq<Event>): Table {
    if events == [] then t else Step(Run(t, events[..|events| - 1]), events[|events| - 1])
  }

  ghost predicate TokensDiffer(t: Table) {
    forall i, j :: 0 <= i < j < |t| ==> t[i].token != t[j].token
  }

  /** A replaced session is revoked, and its replacement is a newer session of the same user. */
  ghost predicate ReplacedIsRevoked(t: Table) {
    forall i :: 0 <= i < |t| && t[i].replacedBy.Some? ==>
      && t[i].revoked
      && i < t[i].replacedBy.value < |t|
      && t[t[i].replacedBy.value].user == t[i].user
  }

  /** No session replaces two. */
  ghost predicate ReplacesOne(t: Table) {
    forall i, j :: 0 <= i < j < |t| && t[i].replacedBy.Some? ==> t[i].replacedBy != t[j].replacedBy
  }

  ghost predicate Inv(t: Table) { TokensDiffer(t) && ReplacedIsRevoked(t) && ReplacesOne(t) }

  lemma IssueKeepsInv(t: Table, user: nat, token: nat, expiresAt: Instant)
    requires Inv(t)
    ensures Inv(AfterIssue(t, user, token, expiresAt))
  {
  }

  lemma RevokeKeepsInv(t: Table, id: SessionId)
    requires Inv(t)
    ensures Inv(AfterRevoke(t, id))
  {
  }

  lemma RefreshKeepsInv(t: Table, presented: nat, next: nat, now: Instant, expiresAt: Instant, userValid: bool)
    requires Inv(t)
    ensures Inv(AfterRefresh(t, presented, next, now, expiresAt, userValid))
  {
    if Refreshes(t, presented, next, now, userValid) {
      var id := IndexOfToken(t, presented).value;
      var after := AfterRefresh(t, presented, next, now, expiresAt, userValid);
      assert after[|t|].replacedBy == None && after[id].replacedBy == Some(|t|);
      assert forall i :: 0 <= i < |t| && i != id ==> after[i] == t[i];
      assert forall i :: 0 <= i < |t| ==> after[i].token == t[i].token && after[i].user == t[i].user;
      assert TokensDiffer(after);
      assert ReplacedIsRevoked(after);
      assert ReplacesOne(after);
    }
  }

  lemma StepKeepsInv(t: Table, e: Event)
    requires Inv(t)
    ensures Inv(Step(t, e))
  {
    match e
    case Login(user, token, expiresAt) => IssueKeepsInv(t, user, token, expiresAt);
    case Refresh(presented, next, now, expiresAt, userValid) =>
      RefreshKeepsInv(t, presented, next, now, expiresAt, userValid);
    case Revoke(id) => RevokeKeepsInv(t, id);
    case RevokeToken(token) =>
      if IndexOfToken(t, token).Some? {
        RevokeKeepsInv(t, IndexOfToken(t, token).value);
      }
  }

  lemma {:induction false} RunKeepsInv(t: Table, events: seq<Event>)
    requires Inv(t)
    ensures Inv(Run(t, events))
  {
    if events != [] {
      RunKeepsInv(t, events[..|events| - 1]);
      StepKeepsInv(Run(t, events[..|events| - 1]), events[|events| - 1]);
    }
  }

  /** Sessions are never dropped, revocation is never undone and a replacement never changes. */
  lemma {:induction false} RowsOnlyAge(t: Table, events: seq<Event>, id: SessionId)
    requires Inv(t) && id < |t|
    ensures var after := Run(t, events);
      && id < |after| && after[id].token == t[id].token && after[id].user == t[id].user
      && (t[id].revoked ==> after[id].revoked)
      && (t[id].replacedBy.Some? ==> after[id].replacedBy == t[id].replacedBy)
  {
    if events != [] {
      RowsOnlyAge(t, events[..|events| - 1], id);
      RunKeepsInv(t, events[..|events| - 1]);
    }
  }

  /** A token is good for one refresh: after it, no refresh with that token ever succeeds again. */
  lemma {:induction false} TokenRefreshesOnce(t: Table, presented: nat, next: nat, now: Instant, expiresAt: Instant,
                                              events: seq<Event>, next': nat, now': Instant, userValid': bool)
    requires Inv(t) && Refreshes(t, presented, next, now, true)
    ensures !Refreshes(Run(AfterRefresh(t, presented, next, now, expiresAt, true), events), presented, next', now',
                       userValid')
  {
    var id := IndexOfToken(t, presented).value;
    var refreshed := AfterRefresh(t, presented, next, now, expiresAt, true);
    StepKeepsInv(t, Refresh(presented, next, now, expiresAt, true));
    RowsOnlyAge(refreshed, events, id);
    RunKeepsInv(refreshed, events);
    var after := Run(refreshed, events);
    var found := IndexOfToken(after, presented);
    assert found.Some? ==> after[found.value].token == after[id].token;
  }

  // ----- chains -----

  /** b is reached from a by following replacements. */
  predicate Reaches(t: Table, a: SessionId, b: SessionId)
    requires Inv(t) && a < |t|
    decreases |t| - a
  {
    a == b || (t[a].replacedBy.Some? && Reaches(t, t[a].replacedBy.value, b))
  }

  lemma {:induction false} ReachesGoesForward(t: Table, a: SessionId, b: SessionId)
    requires Inv(t) && a < |t| && Reaches(t, a, b)
    ensures a <= b < |t|
    ensures a < b ==> t[a].replacedBy.Some? && t[a].revoked
    decreases |t| - a
  {
    if a != b {
      ReachesGoesForward(t, t[a].replacedBy.value, b);
    }
  }

  /** Replacement chains have no cycles: a session is never reached from its own replacement. */
  lemma {:induction false} ChainsAreAcyclic(t: Table, events: seq<Event>, id: SessionId)
    requires Inv(t) && id < |Run(t, events)| && Run(t, events)[id].replacedBy.Some?
    ensures Inv(Run(t, events)) && !Reaches(Run(t, events), Run(t, events)[id].replacedBy.value, id)
  {
    RunKeepsInv(t, events);
    var after := Run(t, events);
    if Reaches(after, after[id].replacedBy.value, id) {
      ReachesGoesForward(after, after[id].replacedBy.value, id);
    }
  }

  /** The session that a chain started from: the one a login issued. */
  ghost function Root(t: Table, id: SessionId): (root: SessionId)
    requires id < |t|
    ensures root <= id
  {
    if i: nat :| i < id && t[i].replacedBy == Some(id) then Root(t, i) else id
  }

  lemma {:induction false} ReachesOneFurther(t: Table, a: SessionId, b: SessionId, next: SessionId)
    requires Inv(t) && a < |t| && b < |t| && Reaches(t, a, b) && t[b].replacedBy == Some(next)
    ensures Reaches(t, a, next)
    decreases |t| - a
  {
    if a != b {
      ReachesOneFurther(t, t[a].replacedBy.value, b, next);
    }
  }

  /** Sessions of one chain are all in line: the older is revoked and leads to the newer. */
  lemma {:induction false} ChainIsALine(t: Table, i: SessionId, k: SessionId)
    requires Inv(t) && i < k < |t| && Root(t, i) == Root(t, k)
    ensures Reaches(t, i, k) && t[i].revoked
    decreases k
  {
    if p: nat :| p < k && t[p].replacedBy == Some(k) && Root(t, k) == Root(t, p) {
      if i < p {
        ChainIsALine(t, i, p);
        ReachesOneFurther(t, i, p, k);
      } else if p < i {
        ChainIsALine(t, p, i);
        ReachesGoesForward(t, k, i);
      }
    }
  }

  /** After any events, each login's chain holds at most one session that is still good, and that
      session is the last of its chain. */
  lemma {:induction false} OneLiveSessionPerLogin(events: seq<Event>, i: SessionId, k: SessionId)
    requires i < |Run([], events)| && k < |Run([], events)|
    requires Root(Run([], events), i) == Root(Run([], events), k)
    requires !Run([], events)[i].revoked
    ensures k <= i
    ensures !Run([], events)[k].revoked ==> k == i
  {
    RunKeepsInv([], events);
    if i < k {
      ChainIsALine(Run([], events), i, k);
    } else if k < i {
      ChainIsALine(Run([], events), k, i);
    }
  }
}
