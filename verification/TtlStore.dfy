/** The rate-limit store kept in a key-value store with expiry (app/services/rate_limit_service.py,
    app/db/redis_client.py), and why expiry never shows. */
module TtlStore {
  import opened Wrappers
  import opened RateLimiter

  /** What the text under a key encodes. */
  datatype Value = WindowValue(window: Window) | FailureValue(state: FailureState)

  datatype Entry = Entry(value: Value, expiresAt: Option<real>)

  datatype StoreKey = WindowKey(key: string) | FailuresKey(key: string)

  predicate IsLive(entry: Entry, clock: real) {
    entry.expiresAt.None? || entry.expiresAt.value >= clock
  }

  function Lookup(store: map<StoreKey, Entry>, key: StoreKey, clock: real): Option<Value> {
    if key in store && IsLive(store[key], clock) then Some(store[key].value) else None
  }

  /** `clock` stands for the store's own reading of the time. */
  class InProcessRedisFallback {
    var store: map<StoreKey, Entry>

    constructor ()
      ensures store == map[]
    {
      store := map[];
    }

    method Get(key: StoreKey, clock: real) returns (value: Option<Value>)
      modifies this
      ensures value == Lookup(old(store), key, clock)
      ensures store == if value.None? then old(store) - {key} else old(store)
    {
      if key !in store || !IsLive(store[key], clock) {
        store := store - {key};
        return None;
      }
      return Some(store[key].value);
    }

    /** A zero or missing `ex` means no expiry. */
    method Set(key: StoreKey, value: Value, ex: Option<int>, clock: real)
      modifies this
      ensures store == old(store)[key := Entry(value, ExpiryOf(ex, clock))]
    {
      var expiresAt := if ex.Some? && ex.value != 0 then Some(clock + ex.value as real) else None;
      store := store[key := Entry(value, expiresAt)];
    }

    method Delete(key: StoreKey)
      modifies this
      ensures store == old(store) - {key}
    {
      store := store - {key};
    }
  }

  function ExpiryOf(ex: Option<int>, clock: real): Option<real> {
    if ex.Some? && ex.value != 0 then Some(clock + ex.value as real) else None
  }

  function Truncated(x: real): int {
    if x >= 0.0 then x.Floor else -((-x).Floor)
  }

  const FAILURE_TTL: int := 60 * 60 * 24

  function WindowSeen(store: map<StoreKey, Entry>, key: string, clock: real): Option<Window> {
    match Lookup(store, WindowKey(key), clock)
    case Some(WindowValue(w)) => Some(w)
    case _ => None
  }

  function FailuresSeen(store: map<StoreKey, Entry>, key: string, clock: real): Option<FailureState> {
    match Lookup(store, FailuresKey(key), clock)
    case Some(FailureValue(s)) => Some(s)
    case _ => None
  }

  /** Each kind of key holds its own kind of value. */
  ghost predicate WellTyped(store: map<StoreKey, Entry>) {
    forall k | k in store :: k.WindowKey? == store[k].value.WindowValue?
  }

  class RedisRateLimitStore {
    const client: InProcessRedisFallback

    constructor (client: InProcessRedisFallback)
      ensures this.client == client
    {
      this.client := client;
    }

    /** `now` is the caller's clock; `readAt` and `writtenAt` are the store's. */
    method IncrementWindow(key: string, now: real, length: real, readAt: real, writtenAt: real) returns (w: Window)
      requires WellTyped(client.store)
      modifies client
      ensures WellTyped(client.store)
      ensures w == Increment(WindowSeen(old(client.store), key, readAt), now, length)
      ensures client.store == old(client.store)[WindowKey(key) := WindowEntry(w, length, writtenAt)]
    {
      var raw := client.Get(WindowKey(key), readAt);
      w := if raw.None? then Window(0, now) else raw.value.window;
      if now - w.start >= length {
        w := Window(0, now);
      }
      w := Window(w.count + 1, w.start);
      client.Set(WindowKey(key), WindowValue(w), Some(Truncated(length) + 5), writtenAt);
    }

    method GetFailureState(key: string, readAt: real) returns (state: Option<FailureState>)
      requires WellTyped(client.store)
      modifies client
      ensures WellTyped(client.store)
      ensures state == FailuresSeen(old(client.store), key, readAt)
      ensures client.store == if state.None? then old(client.store) - {FailuresKey(key)} else old(client.store)
    {
      var raw := client.Get(FailuresKey(key), readAt);
      state := if raw.None? then None else Some(raw.value.state);
    }

    method SetFailureState(key: string, state: FailureState, writtenAt: real)
      requires WellTyped(client.store)
      modifies client
      ensures WellTyped(client.store)
      ensures client.store == old(client.store)[FailuresKey(key) := FailureEntry(state, writtenAt)]
    {
      client.Set(FailuresKey(key), FailureValue(state), Some(FAILURE_TTL), writtenAt);
    }

    method ClearFailureState(key: string)
      requires WellTyped(client.store)
      modifies client
      ensures WellTyped(client.store) && client.store == old(client.store) - {FailuresKey(key)}
    {
      client.Delete(FailuresKey(key));
    }
  }

  function WindowEntry(w: Window, length: real, writtenAt: real): Entry {
    Entry(WindowValue(w), ExpiryOf(Some(Truncated(length) + 5), writtenAt))
  }

  function FailureEntry(state: FailureState, writtenAt: real): Entry {
    Entry(FailureValue(state), ExpiryOf(Some(FAILURE_TTL), writtenAt))
  }

  // ------------------------------------------------------------ refinement over runs

  /** One increment: the caller's clock, then the store's two readings of its own. */
  datatype Op = Op(key: string, now: real, readAt: real, writtenAt: real)

  /** Calls follow one another, and each reads the store no later than `delay` after its own `now`. */
  ghost predicate Clocked(ops: seq<Op>, delay: real) {
    && (forall i | 0 <= i < |ops| ::
        ops[i].now <= ops[i].readAt <= ops[i].writtenAt && ops[i].readAt - ops[i].now <= delay)
    && (forall i, j | 0 <= i < j < |ops| :: ops[i].writtenAt <= ops[j].now)
  }

  /** A limiter checks a key with one window length. */
  function PlainRun(windows: map<string, Window>, ops: seq<Op>, length: string -> real)
      : (seq<Window>, map<string, Window>)
    decreases |ops|
  {
    if ops == [] then ([], windows)
    else
      var op := ops[0];
      var w := Increment(if op.key in windows then Some(windows[op.key]) else None, op.now, length(op.key));
      var (rest, final) := PlainRun(windows[op.key := w], ops[1..], length);
      ([w] + rest, final)
  }

  function TtlRun(store: map<StoreKey, Entry>, ops: seq<Op>, length: string -> real)
      : (seq<Window>, map<StoreKey, Entry>)
    decreases |ops|
  {
    if ops == [] then ([], store)
    else
      var op := ops[0];
      var w := Increment(WindowSeen(store, op.key, op.readAt), op.now, length(op.key));
      var (rest, final) := TtlRun(store[WindowKey(op.key) := WindowEntry(w, length(op.key), op.writtenAt)], ops[1..],
                                  length);
      ([w] + rest, final)
  }

  /** How long a window of this length is kept after it is over: five seconds, less the fraction of
      a second that its expiry loses. */
  function Margin(length: real): real {
    5.0 - (length - length.Floor as real)
  }

  /** The TTL store has every window the plain one has, expiring only well after it is over. */
  ghost predicate Refines(store: map<StoreKey, Entry>, windows: map<string, Window>, length: string -> real) {
    && (forall key :: key in windows <==> WindowKey(key) in store)
    && (forall key | key in windows ::
          var entry := store[WindowKey(key)];
          && entry.value == WindowValue(windows[key])
          && entry.expiresAt.Some? && entry.expiresAt.value >= windows[key].start + length(key) + Margin(length(key)))
  }

  /** One increment: expiry hides a window only when it is over. */
  lemma IncrementAgrees(store: map<StoreKey, Entry>, windows: map<string, Window>, op: Op, length: string -> real)
    requires Refines(store, windows, length) && length(op.key) > 0.0
    requires op.now <= op.readAt <= op.writtenAt && op.readAt - op.now <= Margin(length(op.key))
    ensures
      var plain := Increment(if op.key in windows then Some(windows[op.key]) else None, op.now, length(op.key));
      && Increment(WindowSeen(store, op.key, op.readAt), op.now, length(op.key)) == plain
      && (plain.start <= op.now ==>
          Refines(store[WindowKey(op.key) := WindowEntry(plain, length(op.key), op.writtenAt)],
                  windows[op.key := plain], length))
  {
  }

  ghost predicate StartedBy(windows: map<string, Window>, now: real) {
    forall key | key in windows :: windows[key].start <= now
  }

  /** Over any sequence of increments on any keys, the TTL-backed store returns the same counts and
      window starts as the in-memory one, as long as no read is later than the windows are kept. */
  lemma {:induction false} TtlStoreRefinesPlain(store: map<StoreKey, Entry>, windows: map<string, Window>,
                                                ops: seq<Op>, length: string -> real, delay: real)
    requires Refines(store, windows, length) && Clocked(ops, delay)
    requires forall i | 0 <= i < |ops| :: length(ops[i].key) > 0.0 && delay <= Margin(length(ops[i].key))
    requires ops != [] ==> StartedBy(windows, ops[0].now)
    ensures TtlRun(store, ops, length).0 == PlainRun(windows, ops, length).0
    decreases |ops|
  {
    if ops != [] {
      var op := ops[0];
      IncrementAgrees(store, windows, op, length);
      var w := Increment(if op.key in windows then Some(windows[op.key]) else None, op.now, length(op.key));
      if |ops| > 1 { assert ops[0].writtenAt <= ops[1].now; }
      TtlStoreRefinesPlain(store[WindowKey(op.key) := WindowEntry(w, length(op.key), op.writtenAt)],
                           windows[op.key := w], ops[1..], length, delay);
    }
  }

  /** Two increments of one key: the second falls in the first one's window and reads late. */
  function LateRead(key: string, now: real, readAt: real): seq<Op> {
    [Op(key, 0.0, 0.0, 0.0)] + [Op(key, now, readAt, readAt)]
  }

  lemma LateReadForgets(key: string, now: real, readAt: real, length: string -> real)
    requires 0.0 <= now < length(key) && readAt > length(key) + Margin(length(key))
    ensures PlainRun(map[], LateRead(key, now, readAt), length).0 == [Window(1, 0.0)] + [Window(2, 0.0)]
    ensures TtlRun(map[], LateRead(key, now, readAt), length).0 == [Window(1, 0.0)] + [Window(1, now)]
  {
    var ops := LateRead(key, now, readAt);
    assert ops[1..] == [Op(key, now, readAt, readAt)] && ops[1..][1..] == [];
    var store := map[WindowKey(key) := WindowEntry(Window(1, 0.0), length(key), 0.0)];
    assert WindowSeen(store, key, readAt) == None;
    assert TtlRun(store, ops[1..], length).0 == [Window(1, now)] + [];
    var windows := map[key := Window(1, 0.0)];
    assert PlainRun(windows, ops[1..], length).0 == [Window(2, 0.0)] + [];
  }

  function Always(seconds: real): string -> real {
    (key: string) => seconds
  }

  /** Reads may be as late as that and no later: for every window length, the two stores agree on
      all increments exactly when the delay is at most the margin. */
  lemma StoresAgreeExactlyWhen(seconds: real, delay: real)
    requires seconds > 0.0
    ensures
      var length := Always(seconds);
      delay <= Margin(seconds) <==>
      (forall ops | Clocked(ops, delay) :: TtlRun(map[], ops, length).0 == PlainRun(map[], ops, length).0)
  {
    var length := Always(seconds);
    if delay <= Margin(seconds) {
      forall ops | Clocked(ops, delay)
        ensures TtlRun(map[], ops, length).0 == PlainRun(map[], ops, length).0
      {
        TtlStoreRefinesPlain(map[], map[], ops, length, delay);
      }
    } else {
      var excess := (delay - Margin(seconds)) / 2.0;
      var early := if excess < seconds / 2.0 then excess else seconds / 2.0;
      var now := seconds - early;
      var readAt := now + Margin(seconds) + 2.0 * early;
      LateReadForgets("k", now, readAt, length);
      var ops := LateRead("k", now, readAt);
      assert Clocked(ops, delay);
      assert TtlRun(map[], ops, length).0[1] != PlainRun(map[], ops, length).0[1];
    }
  }

  /** `int` drops the fraction: it never moves away from zero, and by less than one. */
  lemma TruncatedIsTowardsZero(x: real)
    ensures x >= 0.0 ==> 0.0 <= Truncated(x) as real <= x < Truncated(x) as real + 1.0
    ensures x <= 0.0 ==> Truncated(x) as real - 1.0 < x <= Truncated(x) as real <= 0.0
  {
  }

  /** A value that was set is read back up to its expiry and no longer; without a time to live, or
      with one of zero, for ever. */
  lemma SetIsReadUntilExpiry(store: map<StoreKey, Entry>, key: StoreKey, value: Value, ex: Option<int>, setAt: real,
                             readAt: real)
    ensures
      var written := store[key := Entry(value, ExpiryOf(ex, setAt))];
      && (Lookup(written, key, readAt) == Some(value) <==> ex.GetOr(0) == 0 || readAt <= setAt + ex.value as real)
      && (Lookup(written, key, readAt).None? || Lookup(written, key, readAt) == Some(value))
      && (forall other | other != key :: Lookup(written, other, readAt) == Lookup(store, other, readAt))
  {
  }

  /** Reading a lapsed key removes it, which no later read can tell. */
  lemma EvictionIsInvisible(store: map<StoreKey, Entry>, key: StoreKey, clock: real, other: StoreKey, later: real)
    requires clock <= later && Lookup(store, key, clock).None?
    ensures Lookup(store - {key}, other, later) == Lookup(store, other, later)
  {
  }

  // ------------------------------------------------------------ the lockout over runs

  /** `record_failure` with the caller's clock and the store's two readings, or `record_success`. */
  datatype LockOp = FailOp(key: string, now: real, readAt: real, writtenAt: real) | SucceedOp(key: string)

  function PlainLocks(failures: map<string, FailureState>, rule: Lockout, ops: seq<LockOp>): map<string, FailureState>
    decreases |ops|
  {
    if ops == [] then failures
    else
      match ops[0]
      case FailOp(key, now, _, _) =>
        PlainLocks(failures[key := rule.AfterFailure(FailuresIn(failures, key), now)], rule, ops[1..])
      case SucceedOp(key) => PlainLocks(failures - {key}, rule, ops[1..])
  }

  function AfterFailOp(store: map<StoreKey, Entry>, rule: Lockout, op: LockOp): map<StoreKey, Entry>
    requires op.FailOp?
  {
    var state := rule.AfterFailure(FailuresSeen(store, op.key, op.readAt), op.now);
    store[FailuresKey(op.key) := FailureEntry(state, op.writtenAt)]
  }

  function TtlLocks(store: map<StoreKey, Entry>, rule: Lockout, ops: seq<LockOp>): map<StoreKey, Entry>
    decreases |ops|
  {
    if ops == [] then store
    else
      match ops[0]
      case FailOp(_, _, _, _) => TtlLocks(AfterFailOp(store, rule, ops[0]), rule, ops[1..])
      case SucceedOp(key) => TtlLocks(store - {FailuresKey(key)}, rule, ops[1..])
  }

  /** The caller reads its clock before the store writes. */
  ghost predicate WrittenAfterwards(ops: seq<LockOp>) {
    forall op | op in ops && op.FailOp? :: op.now <= op.writtenAt
  }

  /** No failure comes when the failures before it have lapsed, more than a day after the last. */
  ghost predicate NoneLapsed(store: map<StoreKey, Entry>, rule: Lockout, ops: seq<LockOp>)
    decreases |ops|
  {
    ops != [] ==>
      match ops[0]
      case FailOp(key, _, readAt, _) =>
        && (FailuresKey(key) in store ==> IsLive(store[FailuresKey(key)], readAt))
        && NoneLapsed(AfterFailOp(store, rule, ops[0]), rule, ops[1..])
      case SucceedOp(key) => NoneLapsed(store - {FailuresKey(key)}, rule, ops[1..])
  }

  /** A lock comes only from a failure at the threshold or past it, and is over before its key lapses. */
  predicate LockOutlived(rule: Lockout, entry: Entry) {
    && entry.value.FailureValue? && entry.expiresAt.Some?
    && var state := entry.value.state;
    && (state.failures < rule.threshold ==> state.lockedUntil.None?)
    && (state.lockedUntil.Some? ==> state.lockedUntil.value <= entry.expiresAt.value)
  }

  /** No lock outlasts the day for which failures are kept. */
  predicate LocksAreShort(rule: Lockout) {
    rule.max <= FAILURE_TTL as real || rule.base <= 0.0
  }

  lemma ShortBackoff(rule: Lockout, excess: nat)
    requires LocksAreShort(rule)
    ensures rule.Backoff(excess) <= FAILURE_TTL as real
  {
    if rule.base <= 0.0 { NotPositive(rule.base, Pow2(excess) as real); }
  }

  lemma NotPositive(factor: real, n: real)
    requires factor <= 0.0 && n >= 0.0
    ensures factor * n <= 0.0
  {
  }

  ghost predicate SameLocks(store: map<StoreKey, Entry>, failures: map<string, FailureState>, rule: Lockout) {
    && (forall key :: key in failures <==> FailuresKey(key) in store)
    && (forall key | key in failures ::
          LockOutlived(rule, store[FailuresKey(key)]) && store[FailuresKey(key)].value == FailureValue(failures[key]))
  }

  lemma {:induction false} LocksStayTheSame(store: map<StoreKey, Entry>, failures: map<string, FailureState>,
                                            rule: Lockout, ops: seq<LockOp>)
    requires SameLocks(store, failures, rule) && NoneLapsed(store, rule, ops) && WrittenAfterwards(ops)
    requires LocksAreShort(rule)
    ensures SameLocks(TtlLocks(store, rule, ops), PlainLocks(failures, rule, ops), rule)
    decreases |ops|
  {
    if ops != [] {
      assert forall op | op in ops[1..] :: op in ops;
      match ops[0]
      case FailOp(key, now, readAt, _) =>
        assert ops[0] in ops;
        assert FailuresSeen(store, key, readAt) == FailuresIn(failures, key);
        var state := rule.AfterFailure(FailuresIn(failures, key), now);
        if state.failures >= rule.threshold { ShortBackoff(rule, state.failures - rule.threshold); }
        LocksStayTheSame(AfterFailOp(store, rule, ops[0]), failures[key := state], rule, ops[1..]);
      case SucceedOp(key) =>
        LocksStayTheSame(store - {FailuresKey(key)}, failures - {key}, rule, ops[1..]);
    }
  }

  ghost predicate LocksOutlived(store: map<StoreKey, Entry>, rule: Lockout) {
    forall k | k in store && k.FailuresKey? :: LockOutlived(rule, store[k])
  }

  lemma {:induction false} LocksStayOutlived(store: map<StoreKey, Entry>, rule: Lockout, ops: seq<LockOp>)
    requires LocksOutlived(store, rule) && WrittenAfterwards(ops) && LocksAreShort(rule)
    ensures LocksOutlived(TtlLocks(store, rule, ops), rule)
    decreases |ops|
  {
    if ops != [] {
      assert ops[0] in ops && forall op | op in ops[1..] :: op in ops;
      match ops[0]
      case FailOp(key, _, readAt, _) =>
        var state := rule.AfterFailure(FailuresSeen(store, key, readAt), ops[0].now);
        if state.failures >= rule.threshold { ShortBackoff(rule, state.failures - rule.threshold); }
        assert Lookup(store, FailuresKey(key), readAt).Some? ==> LockOutlived(rule, store[FailuresKey(key)]);
        LocksStayOutlived(AfterFailOp(store, rule, ops[0]), rule, ops[1..]);
      case SucceedOp(key) => LocksStayOutlived(store - {FailuresKey(key)}, rule, ops[1..]);
    }
  }

  /** At this moment `is_locked` answers as if what was last written for the key never expired. */
  predicate AsIfKept(rule: Lockout, store: map<StoreKey, Entry>, key: string, at: real) {
    FailuresKey(key) in store ==>
      && store[FailuresKey(key)].value.FailureValue?
      && (rule.Admits(FailuresSeen(store, key, at), at) <==> rule.Admits(Some(store[FailuresKey(key)].value.state), at))
  }

  /** An active lock is never evicted, after any failures and successes on any keys, however far
      apart: locks that are short enough are over before they expire. */
  lemma ActiveLockIsNeverEvicted(rule: Lockout, ops: seq<LockOp>, key: string, at: real)
    requires LocksAreShort(rule) && WrittenAfterwards(ops)
    ensures AsIfKept(rule, TtlLocks(map[], rule, ops), key, at)
  {
    LocksStayOutlived(map[], rule, ops);
    var store := TtlLocks(map[], rule, ops);
    assert FailuresKey(key) in store ==> LockOutlived(rule, store[FailuresKey(key)]);
  }

  function RepeatedFailures(key: string, n: nat): seq<LockOp> {
    if n == 0 then [] else RepeatedFailures(key, n - 1) + [FailOp(key, 0.0, 0.0, 0.0)]
  }

  lemma {:induction false} TtlLocksAppend(store: map<StoreKey, Entry>, rule: Lockout, a: seq<LockOp>, b: seq<LockOp>)
    ensures TtlLocks(store, rule, a + b) == TtlLocks(TtlLocks(store, rule, a), rule, b)
    decreases |a|
  {
    if a == [] {
      assert a + b == b;
    } else {
      assert (a + b)[1..] == a[1..] + b;
      match a[0]
      case FailOp(_, _, _, _) => TtlLocksAppend(AfterFailOp(store, rule, a[0]), rule, a[1..], b);
      case SucceedOp(key) => TtlLocksAppend(store - {FailuresKey(key)}, rule, a[1..], b);
    }
  }

  /** After failures at one moment the key holds their number and the lock of the last. */
  lemma {:induction false} RepeatedFailuresCount(rule: Lockout, key: string, n: nat)
    requires n >= 1
    ensures WrittenAfterwards(RepeatedFailures(key, n))
    ensures
      var store := TtlLocks(map[], rule, RepeatedFailures(key, n));
      && FailuresKey(key) in store
      && var state := rule.AfterFailure(if n == 1 then None else Some(FailureState(n - 1, None)), 0.0);
      && (n >= rule.threshold ==> store[FailuresKey(key)] == FailureEntry(state, 0.0))
      && store[FailuresKey(key)].value.FailureValue? && store[FailuresKey(key)].value.state.failures == n
      && store[FailuresKey(key)].expiresAt == Some(FAILURE_TTL as real)
    decreases n
  {
    var before, op := RepeatedFailures(key, n - 1), FailOp(key, 0.0, 0.0, 0.0);
    if n > 1 { RepeatedFailuresCount(rule, key, n - 1); }
    TtlLocksAppend(map[], rule, before, [op]);
    assert [op][1..] == [];
    assert TtlLocks(map[], rule, RepeatedFailures(key, n)) == AfterFailOp(TtlLocks(map[], rule, before), rule, op);
  }

  /** A power of two past any bound. */
  lemma {:induction false} Pow2Exceeds(n: nat)
    ensures Pow2(n) > n
    decreases n
  {
    if n > 0 { Pow2Exceeds(n - 1); }
  }

  lemma LongBackoff(rule: Lockout) returns (excess: nat)
    requires !LocksAreShort(rule)
    ensures rule.Backoff(excess) > FAILURE_TTL as real
  {
    excess := Multiple(rule.base, FAILURE_TTL as real);
    Pow2Exceeds(excess);
    MinOfLarger(rule.base, excess as real, Pow2(excess) as real, rule.max, FAILURE_TTL as real);
  }

  lemma MinOfLarger(factor: real, a: real, b: real, most: real, bound: real)
    requires factor > 0.0 && a < b && factor * a > bound && most > bound
    ensures Min(factor * b, most) > bound
  {
    LargerProduct(factor, a, b);
  }

  /** Some multiple of a positive number exceeds any bound. */
  lemma Multiple(factor: real, bound: real) returns (n: nat)
    requires factor > 0.0
    ensures factor * n as real > bound
  {
    var quotient := bound / factor;
    assert factor * quotient == bound;
    n := if quotient >= 0.0 then quotient.Floor + 1 else 0;
    LargerProduct(factor, quotient, n as real);
  }

  lemma LargerProduct(factor: real, a: real, b: real)
    requires factor > 0.0 && a < b
    ensures factor * a < factor * b
  {
    var rest := b - a;
    assert factor * rest > 0.0;
    assert factor * (a + rest) == factor * a + factor * rest;
  }

  /** With longer locks some run evicts an active one. */
  lemma LongLockIsEvicted(rule: Lockout, key: string) returns (ops: seq<LockOp>, at: real)
    requires !LocksAreShort(rule)
    ensures WrittenAfterwards(ops) && !AsIfKept(rule, TtlLocks(map[], rule, ops), key, at)
  {
    var excess := LongBackoff(rule);
    var n := if rule.threshold + excess == 0 then 1 else rule.threshold + excess;
    if n > rule.threshold + excess { BackoffGrows(rule, excess, 1); }
    ops := RepeatedFailures(key, n);
    RepeatedFailuresCount(rule, key, n);
    var lock := rule.Backoff(n - rule.threshold);
    at := (FAILURE_TTL as real + lock) / 2.0;
  }

  /** Active locks are never evicted, in any run, exactly when no lock outlasts a day. */
  lemma NeverEvictedExactlyWhen(rule: Lockout)
    ensures LocksAreShort(rule) <==>
      (forall ops, key, at | WrittenAfterwards(ops) :: AsIfKept(rule, TtlLocks(map[], rule, ops), key, at))
  {
    if LocksAreShort(rule) {
      forall ops, key, at | WrittenAfterwards(ops)
        ensures AsIfKept(rule, TtlLocks(map[], rule, ops), key, at)
      {
        ActiveLockIsNeverEvicted(rule, ops, key, at);
      }
    } else {
      var ops, at := LongLockIsEvicted(rule, "k");
    }
  }

  /** As long as no failure comes more than a day after the one before it, every lock decision is
      also the plain store's. */
  lemma LockDecisionsAgree(rule: Lockout, ops: seq<LockOp>, key: string, at: real)
    requires LocksAreShort(rule) && NoneLapsed(map[], rule, ops) && WrittenAfterwards(ops)
    ensures rule.Admits(FailuresSeen(TtlLocks(map[], rule, ops), key, at), at)
            <==> rule.Admits(FailuresIn(PlainLocks(map[], rule, ops), key), at)
  {
    LocksStayTheSame(map[], map[], rule, ops);
    var store, failures := TtlLocks(map[], rule, ops), PlainLocks(map[], rule, ops);
    if key in failures { assert LockOutlived(rule, store[FailuresKey(key)]); }
  }

  /** What expiry does change: a failure more than a day after the last one starts the count
      again, exactly then. */
  lemma FailuresCountedExactlyWhileLive(rule: Lockout, store: map<StoreKey, Entry>, state: FailureState, key: string,
                                        writtenAt: real, at: real)
    requires state.failures >= 1
    ensures
      var written := store[FailuresKey(key) := FailureEntry(state, writtenAt)];
      rule.AfterFailure(FailuresSeen(written, key, at), at) == rule.AfterFailure(Some(state), at)
      <==> at <= writtenAt + 24.0 * 3600.0
  {
    var seen := FailuresSeen(store[FailuresKey(key) := FailureEntry(state, writtenAt)], key, at);
    if at > writtenAt + FAILURE_TTL as real {
      assert rule.AfterFailure(seen, at).failures == 1;
    }
  }

  lemma {:induction false} Pow2Grows(fewer: nat, more: nat)
    requires fewer <= more
    ensures Pow2(fewer) <= Pow2(more)
    decreases more
  {
    if fewer < more { Pow2Grows(fewer, more - 1); }
  }

  lemma MinOfScaled(factor: real, a: real, b: real, most: real)
    requires factor >= 0.0 && a <= b
    ensures Min(factor * a, most) <= Min(factor * b, most)
  {
    var rest := b - a;
    assert factor * rest >= 0.0;
    assert factor * (a + rest) == factor * a + factor * rest;
  }

  lemma BackoffGrows(rule: Lockout, fewer: nat, more: nat)
    requires fewer <= more && rule.base >= 0.0
    ensures rule.Backoff(fewer) <= rule.Backoff(more)
  {
    Pow2Grows(fewer, more);
    MinOfScaled(rule.base, Pow2(fewer) as real, Pow2(more) as real, rule.max);
  }

  /** Whether or not failures lapse: what the store holds is never stricter than the plain state. */
  ghost predicate NoStricter(store: map<StoreKey, Entry>, failures: map<string, FailureState>, rule: Lockout) {
    forall key | FailuresKey(key) in store ::
      && key in failures && store[FailuresKey(key)].value.FailureValue?
      && IsNoStricter(rule, store[FailuresKey(key)].value.state, failures[key])
  }

  predicate IsNoStricter(rule: Lockout, seen: FailureState, plain: FailureState) {
    && seen.failures <= plain.failures
    && (seen.failures < rule.threshold ==> seen.lockedUntil.None?)
    && (seen.lockedUntil.Some? ==> plain.lockedUntil.Some? && seen.lockedUntil.value <= plain.lockedUntil.value)
  }

  lemma FailureKeepsNoStricter(rule: Lockout, seen: Option<FailureState>, plain: Option<FailureState>, now: real)
    requires rule.base >= 0.0
    requires seen.Some? ==> plain.Some? && IsNoStricter(rule, seen.value, plain.value)
    ensures IsNoStricter(rule, rule.AfterFailure(seen, now), rule.AfterFailure(plain, now))
  {
    var s, p := rule.AfterFailure(seen, now), rule.AfterFailure(plain, now);
    if s.failures >= rule.threshold {
      BackoffGrows(rule, s.failures - rule.threshold, p.failures - rule.threshold);
    }
  }

  lemma {:induction false} StaysNoStricter(store: map<StoreKey, Entry>, failures: map<string, FailureState>,
                                           rule: Lockout, ops: seq<LockOp>)
    requires NoStricter(store, failures, rule) && rule.base >= 0.0
    ensures NoStricter(TtlLocks(store, rule, ops), PlainLocks(failures, rule, ops), rule)
    decreases |ops|
  {
    if ops != [] {
      match ops[0]
      case FailOp(key, now, readAt, _) =>
        FailureKeepsNoStricter(rule, FailuresSeen(store, key, readAt), FailuresIn(failures, key), now);
        StaysNoStricter(AfterFailOp(store, rule, ops[0]),
                        failures[key := rule.AfterFailure(FailuresIn(failures, key), now)], rule, ops[1..]);
      case SucceedOp(key) =>
        StaysNoStricter(store - {FailuresKey(key)}, failures - {key}, rule, ops[1..]);
    }
  }

  /** Over every run, with lapses or without, a key the plain store would let pass is let pass. */
  lemma ExpiryNeverLocksOut(rule: Lockout, ops: seq<LockOp>, key: string, at: real)
    requires rule.base >= 0.0 && rule.Admits(FailuresIn(PlainLocks(map[], rule, ops), key), at)
    ensures rule.Admits(FailuresSeen(TtlLocks(map[], rule, ops), key, at), at)
  {
    StaysNoStricter(map[], map[], rule, ops);
  }
}
