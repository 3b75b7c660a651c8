/** Envelopes in flight at the mock supplier: the handler suspends between looking up the key and
    storing the answer, so envelopes under one key can overtake the lookup of each other. */
module MockInterleaving {
  import opened Entities
  import opened MockSupplier

  /** What the handler returned for a verified envelope. */
  datatype Exchange = Exchange(key: string, response: Response)

  /** inFlight are the envelopes that found no stored answer and are suspended; crowded are the keys
      under which an envelope started while another one was in flight. */
  datatype System = System(agent: Agent, inFlight: seq<Envelope>, exchanges: seq<Exchange>, crowded: set<string>)

  /** An envelope arrives and runs up to the suspension; or one resumes and runs to its end. */
  datatype Event = Arrive(envelope: Envelope) | Finish(i: nat, now: Instant, stamp: nat)

  predicate InFlight(inFlight: seq<Envelope>, key: string) {
    exists i :: 0 <= i < |inFlight| && inFlight[i].key == key
  }

  function AfterArrive(s: System, e: Envelope): System {
    if !e.verified then s
    else if e.key in s.agent.answers then s.(exchanges := s.exchanges + [Exchange(e.key, s.agent.answers[e.key])])
    else
      s.(inFlight := s.inFlight + [e],
         crowded := if InFlight(s.inFlight, e.key) then s.crowded + {e.key} else s.crowded)
  }

  function Without(inFlight: seq<Envelope>, i: nat): seq<Envelope>
    requires i < |inFlight|
  {
    inFlight[..i] + inFlight[i + 1..]
  }

  /** The handler after its suspension does not look the key up again. */
  function AfterFinish(s: System, i: nat, now: Instant, stamp: nat): System {
    if i >= |s.inFlight| then s
    else
      var e := s.inFlight[i];
      var result := WorkReply(s.agent, Delivery(e, now, stamp));
      System(Work(s.agent, Delivery(e, now, stamp)), Without(s.inFlight, i),
             if result.Answered? then s.exchanges + [Exchange(e.key, result.response)] else s.exchanges, s.crowded)
  }

  function Step(s: System, e: Event): System {
    match e
    case Arrive(envelope) => AfterArrive(s, envelope)
    case Finish(i, now, stamp) => AfterFinish(s, i, now, stamp)
  }

  function Run(s: System, events: seq<Event>): System {
    if events == [] then s else Step(Run(s, events[..|events| - 1]), events[|events| - 1])
  }

  ghost predicate Quiet(s: System) {
    s.agent.answers == map[] && s.inFlight == [] && s.exchanges == [] && s.crowded == {}
  }

  /** An envelope that is not overtaken is handled as in one piece. */
  lemma UndisturbedIsHandled(s: System, e: Envelope, now: Instant, stamp: nat)
    requires e.verified && e.key !in s.agent.answers
    ensures var d := Delivery(e, now, stamp);
      var after := AfterFinish(AfterArrive(s, e), |s.inFlight|, now, stamp);
      && after.agent == Handle(s.agent, d) && after.inFlight == s.inFlight
      && after.exchanges
         == s.exchanges + (if Reply(s.agent, d).Answered? then [Exchange(e.key, Reply(s.agent, d).response)] else [])
  {
    assert Without(s.inFlight + [e], |s.inFlight|) == s.inFlight;
  }

  // ----- one answer per key -----

  ghost predicate KeyInv(s: System, key: string) {
    key !in s.crowded ==>
      && (forall i, j :: 0 <= i < j < |s.inFlight| ==> !(s.inFlight[i].key == key && s.inFlight[j].key == key))
      && (InFlight(s.inFlight, key) ==> key !in s.agent.answers)
      && (forall x :: x in s.exchanges && x.key == key ==> key in s.agent.answers && s.agent.answers[key] == x.response)
  }

  lemma ArriveKeepsKey(s: System, e: Envelope, key: string)
    requires KeyInv(s, key)
    ensures KeyInv(AfterArrive(s, e), key)
  {
    var after := AfterArrive(s, e);
    assert forall i :: 0 <= i < |s.inFlight| ==> s.inFlight[i].key != key || InFlight(s.inFlight, key);
  }

  lemma WithoutKeeps(inFlight: seq<Envelope>, i: nat, key: string)
    requires i < |inFlight|
    requires forall a, b :: 0 <= a < b < |inFlight| ==> !(inFlight[a].key == key && inFlight[b].key == key)
    ensures forall a, b :: 0 <= a < b < |Without(inFlight, i)| ==>
              !(Without(inFlight, i)[a].key == key && Without(inFlight, i)[b].key == key)
    ensures InFlight(Without(inFlight, i), key) <==> InFlight(inFlight, key) && inFlight[i].key != key
  {
    var rest := Without(inFlight, i);
    assert forall a :: 0 <= a < i ==> rest[a] == inFlight[a];
    assert forall a :: i <= a < |rest| ==> rest[a] == inFlight[a + 1];
    if InFlight(inFlight, key) && inFlight[i].key != key {
      var a :| 0 <= a < |inFlight| && inFlight[a].key == key;
      assert rest[if a < i then a else a - 1].key == key;
    }
  }

  lemma FinishKeepsKey(s: System, i: nat, now: Instant, stamp: nat, key: string)
    requires KeyInv(s, key)
    ensures KeyInv(AfterFinish(s, i, now, stamp), key)
  {
    if i < |s.inFlight| && key !in s.crowded {
      WithoutKeeps(s.inFlight, i, key);
      assert s.inFlight[i].key == key ==> InFlight(s.inFlight, key);
    }
  }

  lemma {:induction false} RunKeepsKey(s: System, events: seq<Event>, key: string)
    requires Quiet(s)
    ensures KeyInv(Run(s, events), key)
  {
    if events != [] {
      RunKeepsKey(s, events[..|events| - 1], key);
      match events[|events| - 1]
      case Arrive(envelope) => ArriveKeepsKey(Run(s, events[..|events| - 1]), envelope, key);
      case Finish(i, now, stamp) => FinishKeepsKey(Run(s, events[..|events| - 1]), i, now, stamp, key);
    }
  }

  /** In every interleaving, if no envelope started while another one under its key was in flight,
      all envelopes under the key got one and the same answer. */
  lemma {:induction false} UncrowdedKeysGetOneAnswer(s: System, events: seq<Event>, x: Exchange, y: Exchange)
    requires Quiet(s) && x in Run(s, events).exchanges && y in Run(s, events).exchanges && x.key == y.key
    requires x.key !in Run(s, events).crowded
    ensures x == y
  {
    RunKeepsKey(s, events, x.key);
  }

  // ----- two answers under one key -----

  /** One envelope in flight runs to its end with an answer. */
  lemma FinishAnswers(s: System, i: nat, now: Instant, stamp: nat)
    requires i < |s.inFlight| && WorkReply(s.agent, Delivery(s.inFlight[i], now, stamp)).Answered?
    ensures var after := AfterFinish(s, i, now, stamp);
      var response := WorkReply(s.agent, Delivery(s.inFlight[i], now, stamp)).response;
      && after.agent.calls == s.agent.calls + 1 && after.inFlight == Without(s.inFlight, i)
      && after.exchanges == s.exchanges + [Exchange(s.inFlight[i].key, response)] && response.stamp == stamp
  {
  }

  /** Any two envelopes that are in flight under one key are both processed, whichever ends first: if
      the agent can serve them, two calls are counted and two different answers go out under the key. */
  lemma OverlapAnswersTwice(s: System, i: nat, j: nat, now: Instant, stamp: nat, later: Instant, other: nat)
    requires i < |s.inFlight| && j < |s.inFlight| && i != j && s.inFlight[i].key == s.inFlight[j].key && stamp != other
    requires WorkReply(s.agent, Delivery(s.inFlight[i], now, stamp)).Answered?
    requires WorkReply(AfterFinish(s, i, now, stamp).agent, Delivery(s.inFlight[j], later, other)).Answered?
    ensures var after := AfterFinish(AfterFinish(s, i, now, stamp), if i < j then j - 1 else j, later, other);
      var n := |s.exchanges|;
      && after.agent.calls == s.agent.calls + 2 && |after.exchanges| == n + 2
      && after.exchanges[n].key == after.exchanges[n + 1].key == s.inFlight[i].key
      && after.exchanges[n].response != after.exchanges[n + 1].response
  {
    var rest := if i < j then j - 1 else j;
    assert Without(s.inFlight, i)[rest] == s.inFlight[j];
    FinishAnswers(s, i, now, stamp);
    FinishAnswers(AfterFinish(s, i, now, stamp), rest, later, other);
  }

  /** From a quiet system: a purchase request that can be served, delivered twice before the first
      copy is answered. */
  lemma TwoCopiesOverlap(s: System, e: Envelope, now: Instant, stamp: nat, other: nat)
    requires Quiet(s) && e.verified && e.message.PurchaseRequest? && s.agent.failEvery == 0 && stamp != other
    requires e.message.sku in s.agent.catalog && e.message.quantity <= s.agent.catalog[e.message.sku].available
    ensures var after := Run(s, [Arrive(e), Arrive(e), Finish(0, now, stamp), Finish(0, now, other)]);
      && after.agent.calls == s.agent.calls + 2 && e.key in after.crowded && |after.exchanges| == 2
      && after.exchanges[0].key == after.exchanges[1].key == e.key
      && after.exchanges[0].response != after.exchanges[1].response
  {
    var s1 := AfterArrive(s, e);
    var s2 := AfterArrive(s1, e);
    assert InFlight(s1.inFlight, e.key) by { assert s1.inFlight[0].key == e.key; }
    assert s2.inFlight == [e, e];
    OverlapAnswersTwice(s2, 0, 1, now, stamp, now, other);
    RunFour(s, Arrive(e), Arrive(e), Finish(0, now, stamp), Finish(0, now, other));
  }

  lemma RunFour(s: System, a: Event, b: Event, c: Event, d: Event)
    ensures Run(s, [a, b, c, d]) == Step(Step(Step(Step(s, a), b), c), d)
  {
    assert [a, b, c, d][..3] == [a, b, c] && [a, b, c][..2] == [a, b] && [a, b][..1] == [a] && [a][..0] == [];
    assert Run(s, [a]) == Step(s, a);
    assert Run(s, [a, b]) == Step(Step(s, a), b);
    assert Run(s, [a, b, c]) == Step(Step(Step(s, a), b), c);
  }
}
