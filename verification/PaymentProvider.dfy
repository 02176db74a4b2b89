/** What the services may hear back from a payment provider, and the in-memory mock
    that implements it with its own session and refund ledger
    (app/providers/payments/base.py, app/providers/payments/mock.py). */
module PaymentProvider {
  import opened Wrappers
  import opened SessionStateMachine
  import opened Idempotency
  import opened PaymentTables

  datatype SessionAnswer = SessionRaised | SessionCreated(sessionId: nat, intent: Option<nat>)

  datatype RefundResult = RefundResult(refundId: Key, status: RefundStatus, amount: int)

  datatype RefundAnswer = RefundRaised | RefundAnswered(result: RefundResult)

  datatype CheckoutStatus = SessionOpen | SessionComplete | SessionOver

  datatype MockSession = MockSession(
    amount: nat,
    status: CheckoutStatus,
    paid: bool,
    intent: Option<nat>,
    refunded: int)

  /** Sessions in the order the provider created them: a session's id names its position,
      and the digest that produces it is injective in the idempotency key. */
  datatype MockState = MockState(
    sessions: seq<MockSession>,
    byKey: map<Key, nat>,
    refunds: map<Key, RefundResult>)

  ghost predicate MockValid(m: MockState) {
    forall k | k in m.byKey :: m.byKey[k] < |m.sessions|
  }

  function MockCreateSession(m: MockState, key: Key, amount: nat): (r: (MockState, SessionAnswer))
    requires MockValid(m)
    ensures MockValid(r.0) && r.1.SessionCreated?
    ensures key in r.0.byKey && r.0.byKey[key] == r.1.sessionId && r.0.refunds == m.refunds
    ensures key in m.byKey ==> r.0 == m
    ensures key !in m.byKey ==> r.1.sessionId == |m.sessions| && r.0.sessions[..|m.sessions|] == m.sessions
  {
    if key in m.byKey then
      (m, SessionCreated(m.byKey[key], m.sessions[m.byKey[key]].intent))
    else
      (m.(sessions := m.sessions + [MockSession(amount, SessionOpen, false, None, 0)],
          byKey := m.byKey[key := |m.sessions|]),
       SessionCreated(|m.sessions|, None))
  }

  /** The first session carrying this payment intent. */
  function SessionOfIntent(sessions: seq<MockSession>, intent: nat): (r: Option<nat>)
    ensures r.Some? ==> r.value < |sessions| && sessions[r.value].intent == Some(intent)
    ensures r.Some? ==> forall j | 0 <= j < r.value :: sessions[j].intent != Some(intent)
    ensures r.None? ==> forall j | 0 <= j < |sessions| :: sessions[j].intent != Some(intent)
  {
    if sessions == [] then None
    else if sessions[0].intent == Some(intent) then Some(0)
    else match SessionOfIntent(sessions[1..], intent)
         case Some(j) => Some(j + 1)
         case None => None
  }

  function MockRefund(m: MockState, intent: nat, amount: int, key: Key): (MockState, RefundAnswer) {
    if key in m.refunds then (m, RefundAnswered(m.refunds[key]))
    else match SessionOfIntent(m.sessions, intent)
         case None => (m, RefundRaised)
         case Some(i) =>
           var s := m.sessions[i];
           if !s.paid || s.refunded + amount > s.amount then (m, RefundRaised)
           else
             var result := RefundResult(key, RefundSucceeded, amount);
             (m.(sessions := m.sessions[i := s.(refunded := s.refunded + amount)],
                 refunds := m.refunds[key := result]),
              RefundAnswered(result))
  }

  function MockComplete(m: MockState, sessionId: nat, paid: bool, intent: nat): MockState
    requires sessionId < |m.sessions|
  {
    var s := m.sessions[sessionId];
    m.(sessions := m.sessions[sessionId := s.(status := SessionComplete, paid := paid, intent := Some(intent))])
  }

  function MockExpire(m: MockState, sessionId: nat): MockState
    requires sessionId < |m.sessions|
  {
    m.(sessions := m.sessions[sessionId := m.sessions[sessionId].(status := SessionOver)])
  }

  class MockPaymentProvider {
    var sessions: seq<MockSession>
    var byKey: map<Key, nat>
    var refunds: map<Key, RefundResult>

    function State(): MockState
      reads this
    {
      MockState(sessions, byKey, refunds)
    }

    ghost predicate Valid()
      reads this
    {
      MockValid(State())
    }

    constructor ()
      ensures Valid() && State() == MockState([], map[], map[])
    {
      sessions, byKey, refunds := [], map[], map[];
    }

    method CreateCheckoutSession(key: Key, amount: nat) returns (answer: SessionAnswer)
      requires Valid()
      modifies this
      ensures Valid()
      ensures (State(), answer) == MockCreateSession(old(State()), key, amount)
    {
      if key in byKey {
        return SessionCreated(byKey[key], sessions[byKey[key]].intent);
      }
      var sessionId := |sessions|;
      sessions := sessions + [MockSession(amount, SessionOpen, false, None, 0)];
      byKey := byKey[key := sessionId];
      return SessionCreated(sessionId, None);
    }

    method FindByIntent(intent: nat) returns (found: Option<nat>)
      ensures found == SessionOfIntent(sessions, intent)
    {
      for i := 0 to |sessions|
        invariant forall j | 0 <= j < i :: sessions[j].intent != Some(intent)
      {
        if sessions[i].intent == Some(intent) {
          return Some(i);
        }
      }
      return None;
    }

    method RefundPayment(intent: nat, amount: int, key: Key) returns (answer: RefundAnswer)
      requires Valid()
      modifies this
      ensures Valid()
      ensures (State(), answer) == MockRefund(old(State()), intent, amount, key)
    {
      if key in refunds {
        return RefundAnswered(refunds[key]);
      }
      var found := FindByIntent(intent);
      if found.None? {
        return RefundRaised;
      }
      var s := sessions[found.value];
      if !s.paid {
        return RefundRaised;
      }
      if s.refunded + amount > s.amount {
        return RefundRaised;
      }
      var result := RefundResult(key, RefundSucceeded, amount);
      sessions := sessions[found.value := s.(refunded := s.refunded + amount)];
      refunds := refunds[key := result];
      return RefundAnswered(result);
    }

    method SimulateCompletion(sessionId: nat, paid: bool, intent: nat)
      requires Valid() && sessionId < |sessions|
      modifies this
      ensures Valid() && State() == MockComplete(old(State()), sessionId, paid, intent)
    {
      var s := sessions[sessionId];
      sessions := sessions[sessionId := s.(status := SessionComplete, paid := paid, intent := Some(intent))];
    }

    method SimulateExpiry(sessionId: nat)
      requires Valid() && sessionId < |sessions|
      modifies this
      ensures Valid() && State() == MockExpire(old(State()), sessionId)
    {
      sessions := sessions[sessionId := sessions[sessionId].(status := SessionOver)];
    }
  }
}
