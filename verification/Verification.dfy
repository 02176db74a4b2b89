/** Booking-verification sessions: the state machine (app/core/security/verification.py) and the
    service that persists it and feeds the lockout (app/services/verification_service.py). */
module Verification {
  import opened Wrappers
  import opened RateLimiter

  datatype Status = Unverified | VerificationPending | Verified | Expired | Failed

  datatype Session = Session(
    bookingId: string,
    purpose: string,
    status: Status,
    attempts: nat,
    maxAttempts: nat,
    expiresAt: real,
    verifiedAt: Option<real>)
  {
    function EffectiveStatus(now: real): Status {
      if (status.VerificationPending? || status.Unverified?) && now >= expiresAt then Expired else status
    }

    predicate IsUsable(now: real) {
      status.Verified? && now < expiresAt
    }

    predicate ScopedTo(booking: string, forPurpose: string) {
      bookingId == booking && purpose == forPurpose
    }

    /** None when the session is already terminal and the submission is refused. */
    function Submit(matched: bool, now: real): Option<Session> {
      var current := EffectiveStatus(now);
      if current.Expired? then Some(this.(status := Expired))
      else if current.Verified? || current.Failed? then None
      else
        var scored := this.(attempts := attempts + 1);
        if matched then Some(scored.(status := Verified, verifiedAt := Some(now)))
        else if attempts + 1 >= maxAttempts then Some(scored.(status := Failed))
        else Some(scored.(status := VerificationPending))
    }
  }

  function Started(bookingId: string, purpose: string, now: real, ttl: real, maxAttempts: nat): Session {
    Session(bookingId, purpose, VerificationPending, 0, maxAttempts, now + ttl, None)
  }

  // ------------------------------------------------------------ runs of one session

  datatype Submission = Submission(matched: bool, at: real)

  /** A refused submission leaves the session as it was. */
  function After(s: Session, subs: seq<Submission>): Session {
    if subs == [] then s
    else
      var before := After(s, subs[..|subs| - 1]);
      before.Submit(subs[|subs| - 1].matched, subs[|subs| - 1].at).GetOr(before)
  }

  /** Open and in time when the last of these submissions was made. */
  predicate LastIsScored(s: Session, subs: seq<Submission>)
    requires subs != []
  {
    var status := After(s, subs[..|subs| - 1]).EffectiveStatus(subs[|subs| - 1].at);
    status.VerificationPending? || status.Unverified?
  }

  function Scored(s: Session, subs: seq<Submission>): nat {
    if subs == [] then 0
    else Scored(s, subs[..|subs| - 1]) + (if LastIsScored(s, subs) then 1 else 0)
  }

  predicate IsTerminal(status: Status) {
    status.Verified? || status.Failed? || status.Expired?
  }

  /** `attempts` counts the scored submissions and never passes `max_attempts`; the booking, the
      purpose and the expiry never change; VERIFIED means that some scored submission matched,
      strictly before expiry, at the recorded time. */
  lemma {:induction false} RunIsCounted(s: Session, subs: seq<Submission>)
    requires s.status.VerificationPending? && s.attempts == 0 && s.verifiedAt.None? && s.maxAttempts >= 1
    ensures
      var s' := After(s, subs);
      && s'.attempts == Scored(s, subs) <= s.maxAttempts
      && (s'.status.VerificationPending? ==> s'.attempts < s.maxAttempts)
      && (s'.status.Failed? ==> s'.attempts == s.maxAttempts)
      && !s'.status.Unverified?
      && s' == s.(status := s'.status, attempts := s'.attempts, verifiedAt := s'.verifiedAt)
      && (s'.status.Verified? <==> s'.verifiedAt.Some?)
      && (s'.status.Verified? ==> exists i | 0 <= i < |subs| :: Verifies(s, subs, i, s'.verifiedAt.value))
    decreases |subs|
  {
    if subs != [] {
      var init, last := subs[..|subs| - 1], subs[|subs| - 1];
      RunIsCounted(s, init);
      var s' := After(s, subs);
      if After(s, init).status.Verified? {
        var i :| 0 <= i < |init| && Verifies(s, init, i, s'.verifiedAt.value);
        assert init[..i] == subs[..i];
        assert Verifies(s, subs, i, s'.verifiedAt.value);
      } else if s'.status.Verified? {
        assert Verifies(s, subs, |subs| - 1, last.at);
      }
    }
  }

  /** Submission `i` matched, in time, while the session was open, at the given moment. */
  predicate Verifies(s: Session, subs: seq<Submission>, i: nat, at: real)
    requires i < |subs|
  {
    subs[i].matched && subs[i].at == at && at < s.expiresAt && After(s, subs[..i]).status.VerificationPending?
  }

  /** VERIFIED, FAILED and EXPIRED are never left. */
  lemma {:induction false} TerminalIsFinal(s: Session, subs: seq<Submission>)
    requires IsTerminal(s.status)
    ensures After(s, subs) == s
    decreases |subs|
  {
    if subs != [] { TerminalIsFinal(s, subs[..|subs| - 1]); }
  }

  // ------------------------------------------------------------ the service

  const DEFAULT_TTL: real := 900.0
  const DEFAULT_MAX_ATTEMPTS: nat := 5

  datatype SubmitOutcome = Recorded(session: Session) | SessionNotFound | RateLimited | SessionUsedUp

  function LockKey(bookingId: string): string {
    "verify:" + bookingId
  }

  predicate CheckPasses(records: map<nat, Session>, token: nat, bookingId: string, purpose: string, now: real) {
    token in records && records[token].IsUsable(now) && records[token].ScopedTo(bookingId, purpose)
  }

  /** The stored sessions by token, token hashes being injective, and the lockout's failures. */
  datatype ServiceState = ServiceState(records: map<nat, Session>, failures: map<string, FailureState>)

  /** An unknown token, a locked booking and a used-up session change nothing. Any other
      submission is scored or expires its session, and is reported to the lockout, if there is
      one, even when the session had expired. */
  function SubmitTo(s: ServiceState, rule: Option<Lockout>, token: nat, matched: bool, now: real)
      : (ServiceState, SubmitOutcome) {
    if token !in s.records then (s, SessionNotFound)
    else
      var record := s.records[token];
      var key := LockKey(record.bookingId);
      if rule.Some? && !rule.value.Admits(FailuresIn(s.failures, key), now) then (s, RateLimited)
      else match record.Submit(matched, now)
           case None => (s, SessionUsedUp)
           case Some(updated) =>
             var failures := if rule.None? then s.failures
                             else if matched then s.failures - {key}
                             else s.failures[key := rule.value.AfterFailure(FailuresIn(s.failures, key), now)];
             (ServiceState(s.records[token := updated], failures), Recorded(updated))
  }

  class VerificationSessionService {
    var records: map<nat, Session>
    const lockout: BackoffLockout?

    constructor (lockout: BackoffLockout?)
      ensures records == map[] && this.lockout == lockout
    {
      records := map[];
      this.lockout := lockout;
    }

    function Rule(): Option<Lockout> {
      if lockout == null then None else Some(lockout.rule)
    }

    function Contents(): ServiceState
      reads this, if lockout == null then {} else {lockout.store}
    {
      ServiceState(records, if lockout == null then map[] else lockout.store.failures)
    }

    method Start(token: nat, bookingId: string, purpose: string, now: real)
      requires token !in records
      modifies this
      ensures records == old(records)[token := Started(bookingId, purpose, now, DEFAULT_TTL, DEFAULT_MAX_ATTEMPTS)]
    {
      records := records[token := Session(bookingId, purpose, VerificationPending, 0, DEFAULT_MAX_ATTEMPTS,
                                          now + DEFAULT_TTL, None)];
    }

    method Submit(token: nat, matched: bool, now: real) returns (outcome: SubmitOutcome)
      modifies this, if lockout == null then {} else {lockout.store}
      ensures (Contents(), outcome) == SubmitTo(old(Contents()), Rule(), token, matched, now)
      ensures lockout != null ==> lockout.store.windows == old(lockout.store.windows)
    {
      if token !in records {
        return SessionNotFound;
      }
      var record := records[token];
      var key := LockKey(record.bookingId);
      if lockout != null {
        var lock := lockout.IsLocked(key, now);
        if !lock.allowed {
          return RateLimited;
        }
      }
      var updated := record.Submit(matched, now);
      if updated.None? {
        return SessionUsedUp;
      }
      records := records[token := updated.value];
      if lockout != null {
        if matched {
          lockout.RecordSuccess(key);
        } else {
          var state := lockout.RecordFailure(key, now);
        }
      }
      return Recorded(updated.value);
    }

    method Check(token: nat, bookingId: string, purpose: string, now: real) returns (usable: bool)
      ensures usable <==> CheckPasses(records, token, bookingId, purpose, now)
    {
      if token !in records {
        return false;
      }
      var record := records[token];
      return record.status.Verified? && now < record.expiresAt && record.bookingId == bookingId &&
          record.purpose == purpose;
    }
  }

  // ------------------------------------------------------------ when a check passes

  /** What `check` says of a session after these submissions. */
  predicate Passes(s: Session, subs: seq<Submission>, bookingId: string, purpose: string, now: real) {
    After(s, subs).IsUsable(now) && After(s, subs).ScopedTo(bookingId, purpose)
  }

  /** A check passes exactly when one of the submissions so far matched while the session was
      open and in time, the check is in time, and it is for the booking and purpose the
      session was started for. */
  lemma ChecksPassExactlyWhen(bookingId: string, purpose: string, started: real, subs: seq<Submission>,
                              booking: string, forPurpose: string, now: real)
    ensures
      var s := Started(bookingId, purpose, started, DEFAULT_TTL, DEFAULT_MAX_ATTEMPTS);
      Passes(s, subs, booking, forPurpose, now) <==>
        && booking == bookingId && forPurpose == purpose && now < started + 15.0 * 60.0
        && SomeVerifies(s, subs)
  {
    var s := Started(bookingId, purpose, started, DEFAULT_TTL, DEFAULT_MAX_ATTEMPTS);
    RunIsCounted(s, subs);
    VerifiedExactlyWhen(s, subs);
  }

  /** A session that was started by the service fails exactly at its fifth mismatch that is scored,
      and no submission after that is. */
  lemma FailsAtTheFifthMismatch(bookingId: string, purpose: string, started: real, subs: seq<Submission>)
    ensures
      var s := Started(bookingId, purpose, started, DEFAULT_TTL, DEFAULT_MAX_ATTEMPTS);
      && Scored(s, subs) <= 5
      && (After(s, subs).status.Failed? <==> Scored(s, subs) == 5 && !SomeVerifies(s, subs))
  {
    var s := Started(bookingId, purpose, started, DEFAULT_TTL, DEFAULT_MAX_ATTEMPTS);
    RunIsCounted(s, subs);
    VerifiedExactlyWhen(s, subs);
    ExpiredBeforeTheLast(s, subs);
  }

  ghost predicate SomeVerifies(s: Session, subs: seq<Submission>) {
    exists i | 0 <= i < |subs| :: Verifies(s, subs, i, subs[i].at)
  }

  lemma VerifiedExactlyWhen(s: Session, subs: seq<Submission>)
    requires s.status.VerificationPending? && s.attempts == 0 && s.verifiedAt.None? && s.maxAttempts >= 1
    ensures After(s, subs).status.Verified? <==> SomeVerifies(s, subs)
  {
    RunIsCounted(s, subs);
    if After(s, subs).status.Verified? {
      var i :| 0 <= i < |subs| && Verifies(s, subs, i, After(s, subs).verifiedAt.value);
      assert Verifies(s, subs, i, subs[i].at);
    }
    if i :| 0 <= i < |subs| && Verifies(s, subs, i, subs[i].at) {
      RunIsCounted(s, subs[..i]);
      VerifiedAfterwards(s, subs, i);
    }
  }

  /** A session expires with attempts left. */
  lemma {:induction false} ExpiredBeforeTheLast(s: Session, subs: seq<Submission>)
    requires s.status.VerificationPending? && s.attempts == 0 && s.verifiedAt.None? && s.maxAttempts >= 1
    ensures After(s, subs).status.Expired? ==> After(s, subs).attempts < s.maxAttempts
    decreases |subs|
  {
    if subs != [] {
      ExpiredBeforeTheLast(s, subs[..|subs| - 1]);
      RunIsCounted(s, subs[..|subs| - 1]);
    }
  }

  lemma VerifiedAfterwards(s: Session, subs: seq<Submission>, i: nat)
    requires i < |subs| && Verifies(s, subs, i, subs[i].at)
    requires After(s, subs[..i]).expiresAt == s.expiresAt
    ensures After(s, subs).status.Verified?
  {
    assert subs[..i + 1][..i] == subs[..i];
    var s' := After(s, subs[..i + 1]);
    assert s'.status.Verified?;
    AfterAppend(s, subs[..i + 1], subs[i + 1..]);
    assert subs == subs[..i + 1] + subs[i + 1..];
    TerminalIsFinal(s', subs[i + 1..]);
  }

  lemma {:induction false} AfterAppend(s: Session, a: seq<Submission>, b: seq<Submission>)
    ensures After(s, a + b) == After(After(s, a), b)
    decreases |b|
  {
    if b == [] {
      assert a + b == a;
    } else {
      assert (a + b)[..|a + b| - 1] == a + b[..|b| - 1];
      AfterAppend(s, a, b[..|b| - 1]);
    }
  }

  // ------------------------------------------------------------ runs of the service

  /** Requests of any callers on any sessions, in the order in which they are served. */
  datatype Request =
    | StartRequest(token: nat, bookingId: string, purpose: string, now: real)
    | SubmitRequest(token: nat, matched: bool, now: real)

  /** Drawn tokens are new; a start under a used one is none. */
  function Serve(s: ServiceState, rule: Option<Lockout>, request: Request): ServiceState {
    match request
    case StartRequest(token, bookingId, purpose, now) =>
      if token in s.records then s
      else s.(records := s.records[token := Started(bookingId, purpose, now, DEFAULT_TTL, DEFAULT_MAX_ATTEMPTS)])
    case SubmitRequest(token, matched, now) => SubmitTo(s, rule, token, matched, now).0
  }

  function Served(rule: Option<Lockout>, requests: seq<Request>): ServiceState {
    if requests == [] then ServiceState(map[], map[])
    else Serve(Served(rule, requests[..|requests| - 1]), rule, requests[|requests| - 1])
  }

  /** The session that the first start under a token opened. */
  function Origin(requests: seq<Request>, token: nat): Option<Session> {
    if requests == [] then None
    else
      var before, last := Origin(requests[..|requests| - 1], token), requests[|requests| - 1];
      if before.None? && last.StartRequest? && last.token == token
      then Some(Started(last.bookingId, last.purpose, last.now, DEFAULT_TTL, DEFAULT_MAX_ATTEMPTS))
      else before
  }

  predicate IsLockedOut(s: ServiceState, rule: Option<Lockout>, bookingId: string, now: real) {
    rule.Some? && !rule.value.Admits(FailuresIn(s.failures, LockKey(bookingId)), now)
  }

  /** The submissions for one session that the lockout let pass. */
  function Passed(rule: Option<Lockout>, requests: seq<Request>, token: nat): seq<Submission> {
    if requests == [] then []
    else
      var init, last := requests[..|requests| - 1], requests[|requests| - 1];
      var s := Served(rule, init);
      Passed(rule, init, token) + if IsPassed(s, rule, last, token) then [Submission(last.matched, last.now)] else []
  }

  lemma AfterOneMore(s: Session, subs: seq<Submission>, sub: Submission)
    ensures After(s, subs + [sub]) == After(s, subs).Submit(sub.matched, sub.at).GetOr(After(s, subs))
  {
    assert (subs + [sub])[..|subs|] == subs;
  }

  predicate IsPassed(s: ServiceState, rule: Option<Lockout>, request: Request, token: nat) {
    && request.SubmitRequest? && request.token == token && token in s.records
    && !IsLockedOut(s, rule, s.records[token].bookingId, request.now)
  }

  function SessionAfter(s: ServiceState, rule: Option<Lockout>, request: Request, token: nat): Session
    requires token in s.records
  {
    var session := s.records[token];
    if IsPassed(s, rule, request, token) then session.Submit(request.matched, request.now).GetOr(session) else session
  }

  /** What one request makes of one session. */
  lemma ServeOneSession(s: ServiceState, rule: Option<Lockout>, request: Request, token: nat)
    ensures
      var s' := Serve(s, rule, request);
      && (token in s'.records <==> token in s.records || (request.StartRequest? && request.token == token))
      && (token in s.records ==> s'.records[token] == SessionAfter(s, rule, request, token))
      && (token !in s.records && token in s'.records ==>
            s'.records[token] == Started(request.bookingId, request.purpose, request.now, DEFAULT_TTL,
                                         DEFAULT_MAX_ATTEMPTS))
  {
  }

  lemma {:induction false} StartedExactlyWhen(rule: Option<Lockout>, requests: seq<Request>, token: nat)
    ensures token in Served(rule, requests).records <==> Origin(requests, token).Some?
    ensures Origin(requests, token).None? ==> Passed(rule, requests, token) == []
    decreases |requests|
  {
    if requests != [] {
      var init := requests[..|requests| - 1];
      StartedExactlyWhen(rule, init, token);
      ServeOneSession(Served(rule, init), rule, requests[|requests| - 1], token);
    }
  }

  lemma PassedOneMore(rule: Option<Lockout>, requests: seq<Request>, token: nat, origin: Session)
    requires requests != []
    requires
      var init := requests[..|requests| - 1];
      token in Served(rule, init).records &&
          Served(rule, init).records[token] == After(origin, Passed(rule, init, token))
    ensures
      var s := Served(rule, requests[..|requests| - 1]);
      SessionAfter(s, rule, requests[|requests| - 1], token) == After(origin, Passed(rule, requests, token))
  {
    var init, last := requests[..|requests| - 1], requests[|requests| - 1];
    if IsPassed(Served(rule, init), rule, last, token) {
      AfterOneMore(origin, Passed(rule, init, token), Submission(last.matched, last.now));
    } else {
      assert Passed(rule, requests, token) == Passed(rule, init, token);
    }
  }

  /** Whatever is served in between, on other sessions and other bookings, a session is what its
      own submissions, as far as the lockout let them pass, have made of it. */
  lemma {:induction false} SessionsAreTheirOwn(rule: Option<Lockout>, requests: seq<Request>, token: nat)
    requires Origin(requests, token).Some?
    ensures token in Served(rule, requests).records
    ensures Served(rule, requests).records[token] == After(Origin(requests, token).value, Passed(rule, requests, token))
    decreases |requests|
  {
    var init, last := requests[..|requests| - 1], requests[|requests| - 1];
    StartedExactlyWhen(rule, requests, token);
    StartedExactlyWhen(rule, init, token);
    ServeOneSession(Served(rule, init), rule, last, token);
    if Origin(init, token).Some? {
      SessionsAreTheirOwn(rule, init, token);
      PassedOneMore(rule, requests, token, Origin(init, token).value);
    } else {
      assert Passed(rule, requests, token) == [];
    }
  }

  /** In every run of the service a check passes exactly when the session was started for that
      booking and purpose, has not run out, and one of its submissions that the lockout let pass
      matched while the session was open and in time. */
  lemma ServiceChecksPassExactlyWhen(rule: Option<Lockout>, requests: seq<Request>, token: nat, booking: string,
                                     purpose: string, now: real)
    ensures
      var origin, subs := Origin(requests, token), Passed(rule, requests, token);
      CheckPasses(Served(rule, requests).records, token, booking, purpose, now) <==>
        && origin.Some? && origin.value.ScopedTo(booking, purpose) && now < origin.value.expiresAt
        && SomeVerifies(origin.value, subs)
  {
    StartedExactlyWhen(rule, requests, token);
    if Origin(requests, token).Some? {
      SessionsAreTheirOwn(rule, requests, token);
      var at := OriginIsStarted(requests, token);
      var s := Origin(requests, token).value;
      ChecksPassExactlyWhen(s.bookingId, s.purpose, at, Passed(rule, requests, token), booking, purpose, now);
    }
  }

  lemma {:induction false} OriginIsStarted(requests: seq<Request>, token: nat) returns (at: real)
    requires Origin(requests, token).Some?
    ensures
      var s := Origin(requests, token).value;
      s == Started(s.bookingId, s.purpose, at, DEFAULT_TTL, DEFAULT_MAX_ATTEMPTS)
    decreases |requests|
  {
    var init, last := requests[..|requests| - 1], requests[|requests| - 1];
    if Origin(init, token).Some? { at := OriginIsStarted(init, token); } else { at := last.now; }
  }

  predicate IsUsedUp(s: Session) {
    s.status.Verified? || s.status.Failed?
  }

  /** What becomes of a session that a submission reaches: it has expired, or it is verified by a
      match, or it fails at its last attempt, or it goes on. */
  predicate IsScoredAs(s: Session, matched: bool, now: real, s': Session) {
    && s'.bookingId == s.bookingId && s'.purpose == s.purpose && s'.maxAttempts == s.maxAttempts
    && s'.expiresAt == s.expiresAt
    && (s'.status.Expired? <==> s.status.Expired? || now >= s.expiresAt)
    && (s'.status.Verified? <==> !s'.status.Expired? && matched)
    && (s'.status.Failed? <==> !s'.status.Expired? && !matched && s.attempts + 1 >= s.maxAttempts)
    && !s'.status.Unverified?
    && s'.attempts == (if s'.status.Expired? then s.attempts else s.attempts + 1)
    && s'.verifiedAt == (if s'.status.Verified? then Some(now) else s.verifiedAt)
  }

  /** A submission is refused exactly when its token is unknown, when the lockout of its session's
      booking holds, or when the session is used up, and then nothing changes. Otherwise its own
      session, and no other, is scored, expired or not; the lockout, if there is one, forgets the
      booking at a match and counts a mismatch. */
  lemma SubmissionIsAnswered(s: ServiceState, rule: Option<Lockout>, token: nat, matched: bool, now: real)
    ensures
      var (s', outcome) := SubmitTo(s, rule, token, matched, now);
      && (outcome == SessionNotFound <==> token !in s.records)
      && (outcome == RateLimited <==> token in s.records && IsLockedOut(s, rule, s.records[token].bookingId, now))
      && (outcome == SessionUsedUp <==>
            && token in s.records && !IsLockedOut(s, rule, s.records[token].bookingId, now)
            && IsUsedUp(s.records[token]))
      && (!outcome.Recorded? ==> s' == s)
      && (outcome.Recorded? ==>
            && IsScoredAs(s.records[token], matched, now, outcome.session)
            && s'.records == s.records[token := outcome.session]
            && (rule.None? ==> s'.failures == s.failures)
            && (rule.Some? && matched ==> s'.failures == s.failures - {LockKey(outcome.session.bookingId)})
            && (rule.Some? && !matched ==>
                  var key := LockKey(outcome.session.bookingId);
                  key in s'.failures && s'.failures == s.failures[key := s'.failures[key]] &&
                  s'.failures[key].failures ==
                    (if key in s.failures then s.failures[key].failures + 1 else 1)))
  {
  }

  // ------------------------------------------------------------ guessing at one booking

  /** Whether a request was reported to the lockout of a booking, and as a match or not. */
  function Reported(s: ServiceState, rule: Lockout, request: Request, bookingId: string): Option<bool> {
    if request.StartRequest? then None
    else
      var outcome := SubmitTo(s, Some(rule), request.token, request.matched, request.now).1;
      if outcome.Recorded? && outcome.session.bookingId == bookingId then Some(request.matched) else None
  }

  /** The mismatches on a booking since its last match, whichever sessions they were made in. */
  function Mismatches(rule: Lockout, requests: seq<Request>, bookingId: string): seq<Attempt> {
    if requests == [] then []
    else
      var init, last := requests[..|requests| - 1], requests[|requests| - 1];
      var before := Mismatches(rule, init, bookingId);
      match Reported(Served(Some(rule), init), rule, last, bookingId)
      case None => before
      case Some(matched) => if matched then [] else before + [Attempt(last.now, last.now)]
  }

  lemma LockKeysDiffer(a: string, b: string)
    requires a != b
    ensures LockKey(a) != LockKey(b) && "verify:" <= LockKey(a)
  {
    assert LockKey(a)[|"verify:"|..] == a && LockKey(b)[|"verify:"|..] == b;
  }

  /** What one request makes of one booking's lockout. */
  lemma ServeOneLockout(s: ServiceState, rule: Lockout, request: Request, bookingId: string)
    ensures
      var before, after := FailuresIn(s.failures, LockKey(bookingId)),
          FailuresIn(Serve(s, Some(rule), request).failures, LockKey(bookingId));
      match Reported(s, rule, request, bookingId)
      case None => after == before
      case Some(matched) =>
        rule.Admits(before, request.now) &&
        after == if matched then None else Some(rule.AfterFailure(before, request.now))
  {
    if request.SubmitRequest? && request.token in s.records && s.records[request.token].bookingId != bookingId {
      LockKeysDiffer(s.records[request.token].bookingId, bookingId);
    }
  }

  lemma AdmittedOneMore(rule: Lockout, attempts: seq<Attempt>, now: real)
    requires Admitted(rule, attempts) && rule.Admits(FailuresAfter(rule, attempts), now)
    ensures
      var more := attempts + [Attempt(now, now)];
      Admitted(rule, more) && FailuresAfter(rule, more) == Some(rule.AfterFailure(FailuresAfter(rule, attempts), now))
  {
    var more := attempts + [Attempt(now, now)];
    assert more[..|attempts|] == attempts;
    forall i | 0 <= i < |attempts|
      ensures more[..i] == attempts[..i]
    {
    }
  }

  /** The lockout of a booking is what those mismatches make it, and each was let pass by it. */
  lemma {:induction false} LockoutFollowsMismatches(rule: Lockout, requests: seq<Request>, bookingId: string)
    ensures
      var attempts := Mismatches(rule, requests, bookingId);
      && Admitted(rule, attempts)
      && FailuresIn(Served(Some(rule), requests).failures, LockKey(bookingId)) == FailuresAfter(rule, attempts)
    decreases |requests|
  {
    if requests != [] {
      var init, last := requests[..|requests| - 1], requests[|requests| - 1];
      var s := Served(Some(rule), init);
      LockoutFollowsMismatches(rule, init, bookingId);
      ServeOneLockout(s, rule, last, bookingId);
      if Reported(s, rule, last, bookingId) == Some(false) {
        AdmittedOneMore(rule, Mismatches(rule, init, bookingId), last.now);
      }
    }
  }

  /** Over every run of the service, and over as many sessions as a caller likes to start, the
      n-th mismatch on a booking past the threshold comes no sooner than the sum of the locks
      before it: until `max` is reached, 2^n - 1 times the base. */
  lemma MismatchesSlowDown(rule: Lockout, requests: seq<Request>, bookingId: string, n: nat)
    requires rule.threshold >= 1 && rule.threshold - 1 + n < |Mismatches(rule, requests, bookingId)|
    ensures
      var attempts := Mismatches(rule, requests, bookingId);
      var waited := attempts[rule.threshold - 1 + n].failed - attempts[rule.threshold - 1].failed;
      && waited >= LockSum(rule, attempts, n)
      && (rule.base >= 0.0 && (n > 0 ==> Doubled(rule.base, n - 1) <= rule.max) ==>
            waited >= Doubled(rule.base, n) - rule.base)
  {
    LockoutFollowsMismatches(rule, requests, bookingId);
    GuessingSlowsDown(rule, Mismatches(rule, requests, bookingId), n);
  }
}
