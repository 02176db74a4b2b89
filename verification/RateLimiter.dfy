/** Fixed-window counting and exponential lockout (app/core/security/rate_limiter.py).
    Times are seconds as exact reals. */
module RateLimiter {
  import opened Wrappers

  datatype Window = Window(count: nat, start: real)

  datatype FailureState = FailureState(failures: nat, lockedUntil: Option<real>)

  datatype CheckResult = CheckResult(allowed: bool, remaining: int, retryAfter: real)

  /** One increment of a key's window; None when the key has none yet. */
  function Increment(window: Option<Window>, now: real, length: real): Window {
    var w := window.GetOr(Window(0, now));
    if now - w.start >= length then Window(1, now) else Window(w.count + 1, w.start)
  }

  function Pow2(n: nat): nat {
    if n == 0 then 1 else 2 * Pow2(n - 1)
  }

  function Min(a: real, b: real): real {
    if a <= b then a else b
  }

  function Max(a: real, b: real): real {
    if a >= b then a else b
  }

  datatype Lockout = Lockout(threshold: nat, base: real, max: real) {
    /** The lock that the failure `excess` past the threshold brings. */
    function Backoff(excess: nat): real {
      Min(base * Pow2(excess) as real, max)
    }

    function AfterFailure(state: Option<FailureState>, now: real): FailureState {
      var s := state.GetOr(FailureState(0, None));
      var failures := s.failures + 1;
      FailureState(failures, if failures >= threshold then Some(now + Backoff(failures - threshold)) else s.lockedUntil)
    }

    predicate Admits(state: Option<FailureState>, now: real) {
      state.None? || state.value.lockedUntil.None? || now >= state.value.lockedUntil.value
    }
  }

  function FailuresIn(failures: map<string, FailureState>, key: string): Option<FailureState> {
    if key in failures then Some(failures[key]) else None
  }

  class InMemoryRateLimitStore {
    var windows: map<string, Window>
    var failures: map<string, FailureState>

    constructor ()
      ensures windows == map[] && failures == map[]
    {
      windows, failures := map[], map[];
    }

    function WindowOf(key: string): Option<Window>
      reads this
    {
      if key in windows then Some(windows[key]) else None
    }

    function FailuresOf(key: string): Option<FailureState>
      reads this
    {
      FailuresIn(failures, key)
    }

    method IncrementWindow(key: string, now: real, length: real) returns (w: Window)
      modifies this
      ensures w == Increment(old(WindowOf(key)), now, length)
      ensures windows == old(windows)[key := w] && failures == old(failures)
    {
      w := if key in windows then windows[key] else Window(0, now);
      if now - w.start >= length {
        w := Window(0, now);
      }
      w := Window(w.count + 1, w.start);
      windows := windows[key := w];
    }

    method SetFailureState(key: string, state: FailureState)
      modifies this
      ensures failures == old(failures)[key := state] && windows == old(windows)
    {
      failures := failures[key := state];
    }

    method ClearFailureState(key: string)
      modifies this
      ensures failures == old(failures) - {key} && windows == old(windows)
    {
      failures := failures - {key};
    }
  }

  class FixedWindowRateLimiter {
    const store: InMemoryRateLimitStore
    const limit: nat
    const length: real

    constructor (store: InMemoryRateLimitStore, limit: nat, length: real)
      ensures this.store == store && this.limit == limit && this.length == length
    {
      this.store, this.limit, this.length := store, limit, length;
    }

    method Check(key: string, now: real) returns (r: CheckResult)
      modifies store
      ensures
        var w := Increment(old(store.WindowOf(key)), now, length);
        && store.windows == old(store.windows)[key := w] && store.failures == old(store.failures)
        && (r.allowed <==> w.count <= limit)
        && r.remaining == (if r.allowed then limit - w.count else 0)
        && r.retryAfter == (if r.allowed then 0.0 else Max(0.0, w.start + length - now))
    {
      var w := store.IncrementWindow(key, now, length);
      if w.count > limit {
        var wait := length - (now - w.start);
        return CheckResult(false, 0, if wait > 0.0 then wait else 0.0);
      }
      return CheckResult(true, limit - w.count, 0.0);
    }
  }

  class BackoffLockout {
    const store: InMemoryRateLimitStore
    const rule: Lockout

    constructor (store: InMemoryRateLimitStore, rule: Lockout)
      ensures this.store == store && this.rule == rule
    {
      this.store, this.rule := store, rule;
    }

    method IsLocked(key: string, now: real) returns (r: CheckResult)
      ensures r.allowed <==> rule.Admits(store.FailuresOf(key), now)
      ensures r.remaining == (if r.allowed then rule.threshold else 0) && (r.allowed ==> r.retryAfter == 0.0)
      ensures !r.allowed ==> store.FailuresOf(key).Some? && now + r.retryAfter == store.failures[key].lockedUntil.value
    {
      if key !in store.failures || store.failures[key].lockedUntil.None? {
        return CheckResult(true, rule.threshold, 0.0);
      }
      var until := store.failures[key].lockedUntil.value;
      if now >= until {
        return CheckResult(true, rule.threshold, 0.0);
      }
      return CheckResult(false, 0, until - now);
    }

    method RecordFailure(key: string, now: real) returns (state: FailureState)
      modifies store
      ensures state == rule.AfterFailure(old(store.FailuresOf(key)), now)
      ensures store.failures == old(store.failures)[key := state] && store.windows == old(store.windows)
    {
      state := if key in store.failures then store.failures[key] else FailureState(0, None);
      state := state.(failures := state.failures + 1);
      if state.failures >= rule.threshold {
        var excess := state.failures - rule.threshold;
        var backoff := Min(rule.base * Pow2(excess) as real, rule.max);
        assert backoff == rule.Backoff(excess);
        state := state.(lockedUntil := Some(now + backoff));
      }
      store.SetFailureState(key, state);
    }

    method RecordSuccess(key: string)
      modifies store
      ensures store.failures == old(store.failures) - {key} && store.windows == old(store.windows)
    {
      store.ClearFailureState(key);
    }
  }

  // ------------------------------------------------------------ fixed windows over a trace

  ghost predicate NonDecreasing(times: seq<real>) {
    forall i, j | 0 <= i < j < |times| :: times[i] <= times[j]
  }

  /** A key's window after checks at the given times. */
  function WindowAfter(times: seq<real>, length: real): Option<Window> {
    if times == [] then None
    else Some(Increment(WindowAfter(times[..|times| - 1], length), times[|times| - 1], length))
  }

  /** How many of the checks at the given times were allowed and fell in [from, until). */
  function AllowedIn(times: seq<real>, limit: nat, length: real, from: real, until: real): nat {
    if times == [] then 0
    else
      var init, now := times[..|times| - 1], times[|times| - 1];
      AllowedIn(init, limit, length, from, until) +
      (if from <= now < until && WindowAfter(times, length).value.count <= limit then 1 else 0)
  }

  /** The most that is allowed in any interval as long as the window: the check that opened the
      earlier of two windows lies before it. */
  function Bound(limit: nat): nat {
    if limit == 0 then 0 else 2 * limit - 1
  }

  function MinNat(a: nat, b: nat): nat {
    if a <= b then a else b
  }

  /** The counting argument: what the window running at `from` still allows, the limit from the
      one that starts after it, and nothing from the next, which starts too late. */
  lemma {:induction false} AllowedInBound(times: seq<real>, limit: nat, length: real, from: real)
    requires length > 0.0 && NonDecreasing(times)
    ensures
      var allowed := AllowedIn(times, limit, length, from, from + length);
      && allowed <= Bound(limit)
      && (times != [] ==>
            var w := WindowAfter(times, length).value;
            var now := times[|times| - 1];
            && w.count >= 1 && w.start <= now < w.start + length
            && (now < from ==> allowed == 0)
            && (w.start < from ==> allowed <= if limit == 0 then 0 else MinNat(w.count, limit) - 1)
            && (from <= w.start < from + length ==>
                allowed <= if limit == 0 then 0 else limit - 1 + MinNat(w.count, limit)))
    decreases |times|
  {
    if times != [] {
      var init := times[..|times| - 1];
      AllowedInBound(init, limit, length, from);
      if init != [] { assert init[|init| - 1] <= times[|times| - 1]; }
    }
  }

  /** With a clock that does not run backwards, fewer than twice the limit are allowed in any
      real-time interval as long as the window, aligned or not. */
  lemma LessThanTwiceTheLimit(times: seq<real>, limit: nat, length: real, from: real)
    requires length > 0.0 && NonDecreasing(times)
    ensures AllowedIn(times, limit, length, from, from + length) <= Bound(limit)
  {
    AllowedInBound(times, limit, length, from);
  }

  function Repeat(t: real, k: nat): seq<real> {
    if k == 0 then [] else Repeat(t, k - 1) + [t]
  }

  /** Checks that fall in the running window and in the interval, and stay within the limit. */
  lemma {:induction false} RepeatAllowed(times: seq<real>, t: real, k: nat, limit: nat, length: real, from: real,
                                         until: real)
    requires times != [] && WindowAfter(times, length).value.count + k <= limit
    requires t - WindowAfter(times, length).value.start < length && from <= t < until
    ensures
      var w := WindowAfter(times, length).value;
      && WindowAfter(times + Repeat(t, k), length) == Some(Window(w.count + k, w.start))
      && AllowedIn(times + Repeat(t, k), limit, length, from, until) == AllowedIn(times, limit, length, from, until) + k
    decreases k
  {
    if k == 0 {
      assert times + [] == times;
    } else {
      RepeatAllowed(times, t, k - 1, limit, length, from, until);
      var init, all := times + Repeat(t, k - 1), times + Repeat(t, k);
      assert all == init + [t] && all[..|all| - 1] == init;
    }
  }

  /** The bound is reached for every limit and window: one check opens a window, the rest of
      the limit comes half a window later, and the whole limit when the next window opens. */
  lemma BoundIsReached(limit: nat, length: real)
    requires limit >= 1 && length > 0.0
    ensures
      var times := [0.0] + Repeat(length / 2.0, limit - 1) + [length] + Repeat(length, limit - 1);
      AllowedIn(times, limit, length, length / 2.0, length / 2.0 + length) == Bound(limit)
  {
    var from, until := length / 2.0, length / 2.0 + length;
    assert [0.0][..0] == [];
    assert WindowAfter([0.0], length) == Some(Window(1, 0.0)) && AllowedIn([0.0], limit, length, from, until) == 0;
    var first := [0.0] + Repeat(length / 2.0, limit - 1);
    RepeatAllowed([0.0], length / 2.0, limit - 1, limit, length, from, until);
    var second := first + [length];
    assert second[..|second| - 1] == first;
    assert WindowAfter(second, length) == Some(Window(1, length));
    RepeatAllowed(second, length, limit - 1, limit, length, from, until);
  }

  /** How many of the checks allowed so far were counted in the window that starts at `start`. */
  function AllowedInWindow(times: seq<real>, limit: nat, length: real, start: real): nat {
    if times == [] then 0
    else
      var w := WindowAfter(times, length).value;
      AllowedInWindow(times[..|times| - 1], limit, length, start) +
          (if w.start == start && w.count <= limit then 1 else 0)
  }

  lemma {:induction false} AllowedInWindowBound(times: seq<real>, limit: nat, length: real, start: real)
    requires length > 0.0 && NonDecreasing(times)
    ensures AllowedInWindow(times, limit, length, start) <= limit
    ensures times != [] ==>
              var w := WindowAfter(times, length).value;
              && w.start <= times[|times| - 1]
              && (w.start == start ==> AllowedInWindow(times, limit, length, start) == MinNat(w.count, limit))
              && (w.start < start ==> AllowedInWindow(times, limit, length, start) == 0)
    decreases |times|
  {
    if times != [] {
      var init := times[..|times| - 1];
      AllowedInWindowBound(init, limit, length, start);
      if init != [] { assert init[|init| - 1] <= times[|times| - 1]; }
    }
  }

  // ------------------------------------------------------------ lockout over a trace

  /** An attempt that `is_locked` let pass at `checked` and that failed at `failed`. */
  datatype Attempt = Attempt(checked: real, failed: real)

  function FailuresAfter(rule: Lockout, attempts: seq<Attempt>): Option<FailureState> {
    if attempts == [] then None
    else Some(rule.AfterFailure(FailuresAfter(rule, attempts[..|attempts| - 1]), attempts[|attempts| - 1].failed))
  }

  /** Failures in a row, each let pass by the lock as it stood. */
  ghost predicate Admitted(rule: Lockout, attempts: seq<Attempt>) {
    forall i | 0 <= i < |attempts| ::
      attempts[i].checked <= attempts[i].failed && rule.Admits(FailuresAfter(rule, attempts[..i]), attempts[i].checked)
  }

  lemma {:induction false} FailuresCounted(rule: Lockout, attempts: seq<Attempt>)
    requires attempts != []
    ensures
      var state := FailuresAfter(rule, attempts).value;
      && state.failures == |attempts|
      && (|attempts| >= rule.threshold ==>
            state.lockedUntil == Some(attempts[|attempts| - 1].failed + rule.Backoff(|attempts| - rule.threshold)))
    decreases |attempts|
  {
    if |attempts| > 1 { FailuresCounted(rule, attempts[..|attempts| - 1]); }
  }

  // ------------------------------------------------------------ how long the locks are

  /** How long the stored lock lasts from the last of these failures; None without one. */
  function LockAfter(rule: Lockout, attempts: seq<Attempt>): Option<real>
    requires attempts != []
  {
    match FailuresAfter(rule, attempts).value.lockedUntil
    case None => None
    case Some(until) => Some(until - attempts[|attempts| - 1].failed)
  }

  /** `x`, doubled `n` times. */
  function Doubled(x: real, n: nat): real {
    if n == 0 then x else Doubled(x, n - 1) + Doubled(x, n - 1)
  }

  lemma {:induction false} DoubledIsPower(x: real, n: nat)
    ensures Doubled(x, n) == x * Pow2(n) as real
    decreases n
  {
    if n > 0 { DoubledIsPower(x, n - 1); }
  }

  lemma BackoffIsDoubled(rule: Lockout, excess: nat)
    ensures rule.Backoff(excess) == Min(Doubled(rule.base, excess), rule.max)
  {
    DoubledIsPower(rule.base, excess);
  }

  lemma {:induction false} NoLockBelow(rule: Lockout, attempts: seq<Attempt>)
    requires 0 < |attempts| < rule.threshold
    ensures FailuresAfter(rule, attempts) == Some(FailureState(|attempts|, None))
    decreases |attempts|
  {
    if |attempts| > 1 { NoLockBelow(rule, attempts[..|attempts| - 1]); }
  }

  /** From the threshold on, every failure in a row stores a lock: the base doubled once for each
      failure past the threshold, and at most `max`. Below it there is none. */
  lemma LocksAreDoubled(rule: Lockout, attempts: seq<Attempt>)
    requires attempts != []
    ensures LockAfter(rule, attempts) ==
      if |attempts| < rule.threshold then None
      else Some(Min(Doubled(rule.base, |attempts| - rule.threshold), rule.max))
  {
    if |attempts| < rule.threshold {
      NoLockBelow(rule, attempts);
    } else {
      FailuresCounted(rule, attempts);
      BackoffIsDoubled(rule, |attempts| - rule.threshold);
    }
  }

  /** The first lock is the base, and each one after it twice the one before, up to `max`. */
  lemma EachLockIsTwiceTheLast(rule: Lockout, attempts: seq<Attempt>)
    requires rule.threshold >= 1 && |attempts| >= rule.threshold && rule.max >= 0.0
    ensures |attempts| == rule.threshold ==> LockAfter(rule, attempts) == Some(Min(rule.base, rule.max))
    ensures |attempts| > rule.threshold ==>
      var last := LockAfter(rule, attempts[..|attempts| - 1]);
      last.Some? && LockAfter(rule, attempts) == Some(Min(2.0 * last.value, rule.max))
  {
    LocksAreDoubled(rule, attempts);
    if |attempts| > rule.threshold { LocksAreDoubled(rule, attempts[..|attempts| - 1]); }
  }

  /** After failures in a row the key is let pass exactly from the end of the last one's lock on, and
      below the threshold at any time. */
  lemma AdmittedExactlyWhen(rule: Lockout, attempts: seq<Attempt>, now: real)
    requires attempts != []
    ensures
      var last := attempts[|attempts| - 1].failed;
      rule.Admits(FailuresAfter(rule, attempts), now) <==>
      |attempts| < rule.threshold || now - last >= Min(Doubled(rule.base, |attempts| - rule.threshold), rule.max)
  {
    LocksAreDoubled(rule, attempts);
  }

  /** The first `n` locks from the threshold on, added up. */
  function LockSum(rule: Lockout, attempts: seq<Attempt>, n: nat): real
    requires rule.threshold >= 1 && rule.threshold - 1 + n <= |attempts|
  {
    if n == 0 then 0.0
    else LockSum(rule, attempts, n - 1) + LockBefore(rule, attempts, rule.threshold - 1 + n)
  }

  /** The lock that stands when attempt `i` is made. */
  function LockBefore(rule: Lockout, attempts: seq<Attempt>, i: nat): real
    requires 1 <= i <= |attempts|
  {
    LockAfter(rule, attempts[..i]).GetOr(0.0)
  }

  lemma {:induction false} DoublingGrows(x: real, m: nat, n: nat)
    requires x >= 0.0 && m <= n
    ensures 0.0 <= Doubled(x, m) <= Doubled(x, n)
    decreases n
  {
    if n > 0 { DoublingGrows(x, if m == n then n - 1 else m, n - 1); }
  }

  /** Until `max` is reached, the first `n` locks last 2^n - 1 times the base. */
  lemma {:induction false} LocksAddUp(rule: Lockout, attempts: seq<Attempt>, n: nat)
    requires rule.threshold >= 1 && rule.threshold - 1 + n <= |attempts| && rule.base >= 0.0
    requires n > 0 ==> Doubled(rule.base, n - 1) <= rule.max
    ensures LockSum(rule, attempts, n) == Doubled(rule.base, n) - rule.base
    decreases n
  {
    if n > 0 {
      DoublingGrows(rule.base, if n == 1 then 0 else n - 2, n - 1);
      LocksAddUp(rule, attempts, n - 1);
      LocksAreDoubled(rule, attempts[..rule.threshold - 1 + n]);
    }
  }

  /** A failure after the threshold comes no sooner than the lock of the one before it. */
  lemma NextFailureWaits(rule: Lockout, attempts: seq<Attempt>, i: nat)
    requires Admitted(rule, attempts) && 1 <= rule.threshold <= i < |attempts|
    ensures attempts[i].failed >= attempts[i - 1].failed + LockBefore(rule, attempts, i)
  {
    var before := attempts[..i];
    FailuresCounted(rule, before);
    assert before[|before| - 1] == attempts[i - 1];
  }

  lemma {:induction false} WaitsForLocks(rule: Lockout, attempts: seq<Attempt>, n: nat)
    requires rule.threshold >= 1 && rule.threshold - 1 + n < |attempts|
    requires forall i | rule.threshold <= i < |attempts| ::
      attempts[i].failed >= attempts[i - 1].failed + LockBefore(rule, attempts, i)
    ensures attempts[rule.threshold - 1 + n].failed >= attempts[rule.threshold - 1].failed + LockSum(rule, attempts, n)
    decreases n
  {
    if n > 0 { WaitsForLocks(rule, attempts, n - 1); }
  }

  /** The n-th failure past the threshold comes no sooner than the sum of the n locks before it:
      until `max` is reached, 2^n - 1 times the base. */
  lemma GuessingSlowsDown(rule: Lockout, attempts: seq<Attempt>, n: nat)
    requires rule.threshold >= 1 && Admitted(rule, attempts) && rule.threshold - 1 + n < |attempts|
    ensures
      var waited := attempts[rule.threshold - 1 + n].failed - attempts[rule.threshold - 1].failed;
      && waited >= LockSum(rule, attempts, n)
      && (rule.base >= 0.0 && (n > 0 ==> Doubled(rule.base, n - 1) <= rule.max) ==>
            waited >= Doubled(rule.base, n) - rule.base)
  {
    forall i | rule.threshold <= i < |attempts|
      ensures attempts[i].failed >= attempts[i - 1].failed + LockBefore(rule, attempts, i)
    {
      NextFailureWaits(rule, attempts, i);
    }
    WaitsForLocks(rule, attempts, n);
    if rule.base >= 0.0 && (n > 0 ==> Doubled(rule.base, n - 1) <= rule.max) { LocksAddUp(rule, attempts, n); }
  }

  datatype Result = Failure(at: real) | Success

  function StateAfter(rule: Lockout, results: seq<Result>): Option<FailureState> {
    if results == [] then None
    else
      match results[|results| - 1]
      case Failure(at) => Some(rule.AfterFailure(StateAfter(rule, results[..|results| - 1]), at))
      case Success => None
  }

  /** In every reachable state a lock ends within `max` of the last failure. */
  lemma {:induction false} NeverPermanent(rule: Lockout, results: seq<Result>, last: real)
    requires StateAfter(rule, results).Some? && StateAfter(rule, results).value.lockedUntil.Some?
    requires forall i | 0 <= i < |results| && results[i].Failure? :: results[i].at <= last
    ensures StateAfter(rule, results).value.lockedUntil.value <= last + rule.max
    decreases |results|
  {
    var init := results[..|results| - 1];
    var state := StateAfter(rule, init).GetOr(FailureState(0, None));
    if state.failures + 1 < rule.threshold {
      NeverPermanent(rule, init, last);
    }
  }
}
