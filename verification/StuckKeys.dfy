/** Which keys stay in progress. `refund_payment` commits outside its `try`: when that commit
    fails the provider has already made the refund, and the key is neither completed nor failed. */
module StuckKeys {
  import opened Wrappers
  import opened Idempotency
  import opened PaymentTables
  import opened PaymentProvider
  import opened PaymentSteps
  import opened ExactlyOnce

  ghost predicate IsHeld(s: State, key: Key) {
    exists t :: t in s.threads && s.threads[t].Holds(key)
  }

  predicate IsInProgress(s: State, key: Key) {
    key in s.entries && s.entries[key].InProgress?
  }

  /** A refund under way is about a row that exists, and has been made when it waits for its commit. */
  predicate Loaded(s: State, phase: Phase) {
    match phase
    case Calling(task) => Readable(s.db, task)
    case Committing(task, _) => Readable(s.db, task) && (task.RefundTask? ==> task.Key() in s.mock.refunds)
    case _ => true
  }

  predicate LeftBehind(s: State, key: Key) {
    IsInProgress(s, key) && key.RefundKey? && key in s.mock.refunds && key !in s.commits
  }

  ghost predicate Accounted(s: State) {
    && (forall key | IsInProgress(s, key) :: key in s.abandoned || IsHeld(s, key))
    && (forall key | key in s.abandoned :: LeftBehind(s, key))
    && (forall t, key | t in s.threads && key in s.abandoned :: !s.threads[t].Holds(key))
    && (forall t | t in s.threads :: Loaded(s, s.threads[t]))
  }

  // ------------------------------------------------------------ every step accounts for its key

  /** A step of one thread that acts under one key. */
  ghost predicate ActsUnder(s: State, s': State, t: nat, phase: Phase, key: Key) {
    && s'.threads == s.threads[t := phase]
    && (forall k | PhaseOf(s, t).Holds(k) || phase.Holds(k) :: k == key)
    && (forall k | k != key ::
          && (k in s.entries <==> k in s'.entries) && (k in s.entries ==> s'.entries[k] == s.entries[k])
          && (k in s.abandoned <==> k in s'.abandoned) && (k in s'.commits ==> k in s.commits))
    && (forall k | k in s.mock.refunds :: k in s'.mock.refunds)
    && |s.db.payments| <= |s'.db.payments|
  }

  lemma OthersStayHeld(s: State, s': State, t: nat, phase: Phase, key: Key, k: Key)
    requires ActsUnder(s, s', t, phase, key) && k != key && IsHeld(s, k)
    ensures IsHeld(s', k)
  {
    var u :| u in s.threads && s.threads[u].Holds(k);
    assert PhaseOf(s, u).Holds(k);
    assert u != t && s'.threads[u] == s.threads[u];
  }

  lemma ActingKeepsAccounted(s: State, s': State, t: nat, phase: Phase, key: Key)
    requires Accounted(s) && ActsUnder(s, s', t, phase, key) && Loaded(s', phase)
    requires IsInProgress(s', key) ==> key in s'.abandoned || IsHeld(s', key)
    requires key in s'.abandoned ==> LeftBehind(s', key) && forall u | u in s'.threads :: !s'.threads[u].Holds(key)
    ensures Accounted(s')
  {
    forall k | IsInProgress(s', k)
      ensures k in s'.abandoned || IsHeld(s', k)
    {
      if k != key {
        assert IsInProgress(s, k);
        if k !in s.abandoned { OthersStayHeld(s, s', t, phase, key, k); }
      }
    }
    forall k | k in s'.abandoned
      ensures LeftBehind(s', k)
    {
      if k != key { assert LeftBehind(s, k); }
    }
    forall u | u in s'.threads
      ensures Loaded(s', s'.threads[u])
    {
      if u != t { assert Loaded(s, s.threads[u]); }
    }
  }

  lemma BeginKeepsAccounted(s: State, t: nat, task: Task)
    requires Valid(s) && Accounted(s) && (PhaseOf(s, t).Idle? || PhaseOf(s, t).Done?) && Readable(s.db, task)
    ensures Accounted(Begun(s, t, task))
  {
    BeginAdmitsOnlyNewKeys(s, task);
    var s', key := Begun(s, t, task), task.Key();
    if key in s.entries {
      if IsInProgress(s, key) && key !in s.abandoned {
        var u :| u in s.threads && s.threads[u].Holds(key);
        assert u != t && s'.threads[u].Holds(key);
      }
    } else {
      assert s'.threads[t].Holds(key);
    }
    ActingKeepsAccounted(s, s', t, s'.threads[t], key);
  }

  lemma CallKeepsAccounted(s: State, t: nat, task: Task)
    requires Valid(s) && Accounted(s) && t in s.threads && s.threads[t] == Calling(task)
    ensures Accounted(Called(s, t, task))
  {
    var s', key := Called(s, t, task), task.Key();
    assert s.threads[t].Holds(key) && s'.threads[t].Holds(key) && Loaded(s, s.threads[t]);
    ActingKeepsAccounted(s, s', t, s'.threads[t], key);
  }

  lemma CommitKeepsAccounted(s: State, t: nat, task: Task, answer: Answer)
    requires Valid(s) && Accounted(s) && t in s.threads && s.threads[t] == Committing(task, answer)
    ensures Accounted(Commit(s, t, task, answer))
  {
    var s', key := Commit(s, t, task, answer), task.Key();
    CommitActs(s, t, task, answer);
    assert s.threads[t].Holds(key) && s'.threads[t].Holds(key) && Loaded(s, s.threads[t]);
    ActingKeepsAccounted(s, s', t, s'.threads[t], key);
  }

  lemma CommitActs(s: State, t: nat, task: Task, answer: Answer)
    requires t in s.threads && s.threads[t] == Committing(task, answer)
    ensures
      var s' := Commit(s, t, task, answer);
      && t in s'.threads && s'.threads == s.threads[t := s'.threads[t]]
      && (s'.threads[t] == s.threads[t] || s'.threads[t] == Failing(task) ||
          (s'.threads[t].Completing? && s'.threads[t].task == task))
      && s'.entries == s.entries && s'.abandoned == s.abandoned && s'.mock == s.mock
      && (s'.commits == s.commits || s'.commits == s.commits + [task.Key()]) && |s.db.payments| <= |s'.db.payments|
  {
    assert s.threads[t := s.threads[t]] == s.threads;
  }

  lemma CommitFailedKeepsAccounted(s: State, t: nat, task: Task, answer: Answer)
    requires Valid(s) && Accounted(s) && t in s.threads && s.threads[t] == Committing(task, answer)
    ensures Accounted(CommitFailed(s, t, task))
  {
    var s', key := CommitFailed(s, t, task), task.Key();
    assert s.threads[t].Holds(key) && Loaded(s, s.threads[t]) && PhaseValid(s, s.threads[t]);
    if !task.RefundTask? { assert s'.threads[t].Holds(key); }
    ActingKeepsAccounted(s, s', t, s'.threads[t], key);
  }

  lemma EndKeepsAccounted(s: State, t: nat)
    requires Valid(s) && Accounted(s) && t in s.threads && (s.threads[t].Completing? || s.threads[t].Failing?)
    ensures Accounted(Next(s, EndCall(t)))
  {
    var s', key := Next(s, EndCall(t)), s.threads[t].task.Key();
    assert s.threads[t].Holds(key);
    ActingKeepsAccounted(s, s', t, s'.threads[t], key);
  }

  lemma OutsideKeepsAccounted(s: State, step: Step)
    requires Valid(s) && Accounted(s) && IsOutside(step)
    ensures Accounted(Next(s, step))
  {
    var s' := Next(s, step);
    forall key | IsInProgress(s', key)
      ensures key in s'.abandoned || IsHeld(s', key)
    {
      assert IsInProgress(s, key);
      if key !in s.abandoned {
        var t :| t in s.threads && s.threads[t].Holds(key);
        assert s'.threads[t].Holds(key);
      }
    }
    forall key | key in s'.abandoned
      ensures LeftBehind(s', key)
    {
      assert LeftBehind(s, key);
    }
    forall t | t in s'.threads
      ensures Loaded(s', s'.threads[t])
    {
      assert Loaded(s, s.threads[t]);
    }
  }

  lemma NextKeepsAccounted(s: State, step: Step)
    requires Valid(s) && Accounted(s)
    ensures Accounted(Next(s, step)) && s.abandoned <= Next(s, step).abandoned
  {
    match step
    case BeginCall(t, task) =>
      if (PhaseOf(s, t).Idle? || PhaseOf(s, t).Done?) && Readable(s.db, task) { BeginKeepsAccounted(s, t, task); }
    case CallProvider(t) => if PhaseOf(s, t).Calling? { CallKeepsAccounted(s, t, PhaseOf(s, t).task); }
    case CommitCall(t, storageFails) =>
      var phase := PhaseOf(s, t);
      if phase.Committing? && storageFails {
        CommitFailedKeepsAccounted(s, t, phase.task, phase.answer);
      } else if phase.Committing? {
        CommitKeepsAccounted(s, t, phase.task, phase.answer);
      }
    case EndCall(t) => if PhaseOf(s, t).Completing? || PhaseOf(s, t).Failing? { EndKeepsAccounted(s, t); }
    case _ => OutsideKeepsAccounted(s, step);
  }

  lemma {:induction false} RunKeepsAccounted(s: State, steps: seq<Step>)
    requires Valid(s) && Accounted(s)
    ensures Valid(Run(s, steps)) && Accounted(Run(s, steps)) && s.abandoned <= Run(s, steps).abandoned
    decreases |steps|
  {
    if steps != [] {
      NextKeepsValid(s, steps[0]);
      NextKeepsAccounted(s, steps[0]);
      RunKeepsAccounted(Next(s, steps[0]), steps[1..]);
    }
  }

  lemma StartIsAccounted()
    ensures Valid(START) && Accounted(START)
  {
  }

  lemma ReachedIsAccounted(steps: seq<Step>)
    ensures Valid(Run(START, steps)) && Accounted(Run(START, steps))
  {
    StartIsAccounted();
    RunKeepsAccounted(START, steps);
  }

  lemma AccountedExactly(s: State, key: Key)
    requires Accounted(s) && HeldAreInProgress(s)
    ensures IsInProgress(s, key) <==> key in s.abandoned || IsHeld(s, key)
  {
    if key in s.abandoned { assert LeftBehind(s, key); }
  }

  // ------------------------------------------------------------ what stays in progress

  /** After every interleaving, a key is in progress exactly when a thread holds it or a refund
      has been left behind under it. */
  lemma InProgressExactlyWhen(steps: seq<Step>, key: Key)
    ensures
      var s := Run(START, steps);
      IsInProgress(s, key) <==> key in s.abandoned || IsHeld(s, key)
  {
    ReachedIsAccounted(steps);
    AccountedExactly(Run(START, steps), key);
  }

  /** For a refund left behind: the provider has made it, nothing is committed, and over every
      continuation that stays so and every further call with the key is refused. */
  lemma LeftBehindForEver(steps: seq<Step>, more: seq<Step>, key: Key)
    requires key in Run(START, steps).abandoned
    ensures
      var s := Run(Run(START, steps), more);
      && LeftBehind(s, key)
      && (forall t, task: Task | task.Key() == key && Readable(s.db, task) &&
          (PhaseOf(s, t).Idle? || PhaseOf(s, t).Done?) ::
            PhaseOf(Next(s, BeginCall(t, task)), t) == Done(Raised(RequestInProgress)))
  {
    ReachedIsAccounted(steps);
    RunKeepsAccounted(Run(START, steps), more);
    assert LeftBehind(Run(Run(START, steps), more), key);
  }

  /** The thread that holds a key can always end its call. */
  function Finish(t: nat): seq<Step> {
    [CallProvider(t), CommitCall(t, false), EndCall(t)]
  }

  lemma EndReleases(s: State, t: nat, key: Key)
    requires Valid(s) && PhaseOf(s, t).Holds(key) && (PhaseOf(s, t).Completing? || PhaseOf(s, t).Failing?)
    ensures !IsInProgress(Next(s, EndCall(t)), key)
  {
  }

  lemma CommitReachesEnd(s: State, t: nat, key: Key)
    requires Valid(s) && Accounted(s) && PhaseOf(s, t).Holds(key) && !PhaseOf(s, t).Calling?
    ensures
      var phase := PhaseOf(Next(s, CommitCall(t, false)), t);
      phase.Holds(key) && (phase.Completing? || phase.Failing?)
  {
    assert Loaded(s, s.threads[t]) && PhaseValid(s, s.threads[t]);
  }

  lemma FinishReleases(s: State, t: nat, key: Key)
    requires Valid(s) && Accounted(s) && PhaseOf(s, t).Holds(key)
    ensures !IsInProgress(Run(s, Finish(t)), key)
  {
    var s1 := Next(s, CallProvider(t));
    NextKeepsValid(s, CallProvider(t));
    NextKeepsAccounted(s, CallProvider(t));
    assert PhaseOf(s1, t).Holds(key) && !PhaseOf(s1, t).Calling?;
    var s2 := Next(s1, CommitCall(t, false));
    CommitReachesEnd(s1, t, key);
    NextKeepsValid(s1, CommitCall(t, false));
    EndReleases(s2, t, key);
    RunOfThree(s, CallProvider(t), CommitCall(t, false), EndCall(t));
  }

  lemma RunOfThree(s: State, a: Step, b: Step, c: Step)
    requires MockValid(s.mock)
    ensures Run(s, [a, b, c]) == Next(Next(Next(s, a), b), c)
  {
    var s1 := Next(s, a);
    var s2 := Next(s1, b);
    var s3 := Next(s2, c);
    assert [a, b, c][1..] == [b, c] && [b, c][1..] == [c] && [c][1..] == [];
    assert Run(s3, []) == s3;
    assert Run(s2, [c]) == s3;
    assert Run(s1, [b, c]) == s3;
  }

  /** A key that is in progress stays so whatever happens exactly when a refund has been left
      behind under it. */
  lemma StaysInProgressExactlyWhen(steps: seq<Step>, key: Key)
    requires IsInProgress(Run(START, steps), key)
    ensures (forall more :: IsInProgress(Run(Run(START, steps), more), key)) <==> key in Run(START, steps).abandoned
  {
    var s := Run(START, steps);
    ReachedIsAccounted(steps);
    if key in s.abandoned {
      forall more
        ensures IsInProgress(Run(s, more), key)
      {
        LeftBehindForEver(steps, more, key);
      }
    } else {
      var t :| t in s.threads && s.threads[t].Holds(key);
      FinishReleases(s, t, key);
    }
  }
}
