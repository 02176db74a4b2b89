/** The mock payment provider by itself, driven by any calls with any arguments: what it answers,
    what it refuses, and what its ledger and its two idempotency tables keep. */
module MockPayments {
  import opened Wrappers
  import opened SessionStateMachine
  import opened Idempotency
  import opened PaymentTables
  import opened PaymentProvider

  datatype Op =
    | CreateOp(key: Key, amount: nat)
    | RefundOp(intent: nat, refund: int, key: Key)
    | CompleteOp(sessionId: nat, paid: bool, intent: nat)
    | ExpireOp(sessionId: nat)

  /** A completion or expiry of a session that does not exist is none. */
  function Next(m: MockState, op: Op): (m': MockState)
    requires MockValid(m)
    ensures MockValid(m')
  {
    match op
    case CreateOp(key, amount) => MockCreateSession(m, key, amount).0
    case RefundOp(intent, amount, key) => MockRefund(m, intent, amount, key).0
    case CompleteOp(i, paid, intent) => if i < |m.sessions| then MockComplete(m, i, paid, intent) else m
    case ExpireOp(i) => if i < |m.sessions| then MockExpire(m, i) else m
  }

  function Run(m: MockState, ops: seq<Op>): (m': MockState)
    requires MockValid(m)
    ensures MockValid(m')
    decreases |ops|
  {
    if ops == [] then m else Run(Next(m, ops[0]), ops[1..])
  }

  const NEW := MockState([], map[], map[])

  // ------------------------------------------------------------ single calls

  /** The session a refund under this intent is made from, when it is captured and covers it. */
  ghost predicate Covers(m: MockState, i: nat, intent: nat, amount: int) {
    && i < |m.sessions| && m.sessions[i].intent == Some(intent)
    && (forall j | 0 <= j < i :: m.sessions[j].intent != Some(intent))
    && m.sessions[i].paid && amount <= m.sessions[i].amount - m.sessions[i].refunded
  }

  /** Under a new key a refund is made exactly when the first session with the intent covers it, and
      adds its amount to that session alone; otherwise it is refused and nothing changes. Under a
      known key the first answer is given again. */
  lemma RefundIsAnswered(m: MockState, intent: nat, amount: int, key: Key)
    ensures
      var (m', answer) := MockRefund(m, intent, amount, key);
      && (key in m.refunds ==> m' == m && answer == RefundAnswered(m.refunds[key]))
      && (key !in m.refunds ==>
            && (answer.RefundAnswered? <==> exists i: nat :: Covers(m, i, intent, amount))
            && (answer.RefundRaised? ==> m' == m)
            && (answer.RefundAnswered? ==> answer.result == RefundResult(key, RefundSucceeded, amount))
            && (forall i: nat | Covers(m, i, intent, amount) ::
                  && m'.byKey == m.byKey && m'.refunds == m.refunds[key := answer.result]
                  && m'.sessions == m.sessions[i := m.sessions[i].(refunded := m.sessions[i].refunded + amount)]))
  {
    var found := SessionOfIntent(m.sessions, intent);
    forall i: nat | Covers(m, i, intent, amount)
      ensures found == Some(i)
    {
      assert found.Some? && !(found.value < i);
    }
    if found.Some? && m.sessions[found.value].paid &&
       amount <= m.sessions[found.value].amount - m.sessions[found.value].refunded {
      assert Covers(m, found.value, intent, amount);
    }
  }

  /** A simulated completion sets status, capture and intent of one session, an expiry only its
      status; amounts, refunds and every other session stay. */
  lemma SimulationsChangeOneSession(m: MockState, i: nat, paid: bool, intent: nat)
    requires i < |m.sessions|
    ensures
      var s, s' := m.sessions[i], MockComplete(m, i, paid, intent).sessions[i];
      && s'.status.SessionComplete? && s'.paid == paid && s'.intent == Some(intent)
      && s'.amount == s.amount && s'.refunded == s.refunded
    ensures
      var s, s' := m.sessions[i], MockExpire(m, i).sessions[i];
      s'.status.SessionOver? && s' == s.(status := s'.status)
    ensures forall m' | m' == MockComplete(m, i, paid, intent) || m' == MockExpire(m, i) ::
              && m'.byKey == m.byKey && m'.refunds == m.refunds && |m'.sessions| == |m.sessions|
              && forall j | 0 <= j < |m.sessions| && j != i :: m'.sessions[j] == m.sessions[j]
  {
  }

  /** A new key opens one session: open, uncaptured, without an intent or a refund. */
  lemma SessionIsOpened(m: MockState, key: Key, amount: nat)
    requires MockValid(m) && key !in m.byKey
    ensures
      var (m', answer) := MockCreateSession(m, key, amount);
      && answer == SessionCreated(|m.sessions|, None)
      && |m'.sessions| == |m.sessions| + 1 && m'.sessions[..|m.sessions|] == m.sessions
      && m'.byKey == m.byKey[key := |m.sessions|] && m'.refunds == m.refunds
      && var s := m'.sessions[|m.sessions|];
      && s.amount == amount && s.status.SessionOpen? && !s.paid && s.intent.None? && s.refunded == 0
  {
  }

  // ------------------------------------------------------------ whole runs

  ghost predicate NeverOver(m: MockState) {
    forall s | s in m.sessions :: s.refunded <= s.amount
  }

  lemma NextKeepsNeverOver(m: MockState, op: Op)
    requires MockValid(m) && NeverOver(m)
    ensures NeverOver(Next(m, op))
  {
    if op.RefundOp? { RefundIsAnswered(m, op.intent, op.refund, op.key); }
  }

  lemma {:induction false} RunKeepsNeverOver(m: MockState, ops: seq<Op>)
    requires MockValid(m) && NeverOver(m)
    ensures NeverOver(Run(m, ops))
    decreases |ops|
  {
    if ops != [] {
      NextKeepsNeverOver(m, ops[0]);
      RunKeepsNeverOver(Next(m, ops[0]), ops[1..]);
    }
  }

  /** Whatever is asked of it, the mock never refunds more than a session's amount. */
  lemma NeverRefundsMoreThanTheAmount(ops: seq<Op>)
    ensures forall s | s in Run(NEW, ops).sessions :: s.refunded <= s.amount
  {
    RunKeepsNeverOver(NEW, ops);
  }

  /** A key, once used, gives the same session and the same refund for ever, and a session keeps
      its amount. */
  lemma {:induction false} KeysAreForEver(m: MockState, ops: seq<Op>)
    requires MockValid(m)
    ensures
      var m' := Run(m, ops);
      && (forall key | key in m.byKey :: key in m'.byKey && m'.byKey[key] == m.byKey[key])
      && (forall key | key in m.refunds :: key in m'.refunds && m'.refunds[key] == m.refunds[key])
      && |m.sessions| <= |m'.sessions|
      && (forall i | 0 <= i < |m.sessions| :: m'.sessions[i].amount == m.sessions[i].amount)
    decreases |ops|
  {
    if ops != [] {
      KeysStay(m, ops[0]);
      KeysAreForEver(Next(m, ops[0]), ops[1..]);
    }
  }

  lemma KeysStay(m: MockState, op: Op)
    requires MockValid(m)
    ensures
      var m' := Next(m, op);
      && (forall key | key in m.byKey :: key in m'.byKey && m'.byKey[key] == m.byKey[key])
      && (forall key | key in m.refunds :: key in m'.refunds && m'.refunds[key] == m.refunds[key])
      && |m.sessions| <= |m'.sessions|
      && (forall i | 0 <= i < |m.sessions| :: m'.sessions[i].amount == m.sessions[i].amount)
  {
    if op.CreateOp? && op.key !in m.byKey { SessionIsOpened(m, op.key, op.amount); }
  }
}
