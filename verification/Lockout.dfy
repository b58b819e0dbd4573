/** Progressive account lockout (server/vault-server/src/security.rs:106-119 and the counter in
    server/vault-server/src/routes/auth.rs:34-66, 74-147). */
module Lockout {
  import opened Wrappers

  const LOCKOUT_THRESHOLD := 10
  const LOCKOUT_BASE_SECS := 60
  const LOCKOUT_CAP_SECS := 3600

  function Min(a: int, b: int): int {
    if a <= b then a else b
  }

  /** `secs << doublings`. */
  function Doubled(secs: int, doublings: nat): int {
    if doublings == 0 then secs else 2 * Doubled(secs, doublings - 1)
  }

  function LockoutDuration(failedAttempts: int): Option<int> {
    if failedAttempts < LOCKOUT_THRESHOLD then None
    else
      var doublings := Min(failedAttempts - LOCKOUT_THRESHOLD, 6);
      Some(Min(Doubled(LOCKOUT_BASE_SECS, doublings), LOCKOUT_CAP_SECS))
  }

  // ---- Login attempts against one account

  /** What the submitted credentials turn out to be. */
  datatype Credentials = Wrong | Unverified | MissingCode | WrongCode | Right

  datatype Outcome = LockedOut(retryAfter: int) | Failed | EmailNotVerified | MfaRequired | LoggedIn

  datatype Counter = Counter(failedAttempts: int, lockoutUntil: Option<int>)

  const CLEAR := Counter(0, None)

  function Answer(c: Counter, credentials: Credentials, now: int): Outcome {
    if c.lockoutUntil.Some? && c.lockoutUntil.value > now then LockedOut(c.lockoutUntil.value - now)
    else
      match credentials
      case Wrong => Failed
      case Unverified => EmailNotVerified
      case MissingCode => MfaRequired
      case WrongCode => Failed
      case Right => LoggedIn
  }

  function AfterFailure(c: Counter, now: int): Counter {
    var attempts := c.failedAttempts + 1;
    Counter(attempts, match LockoutDuration(attempts) case None => None case Some(d) => Some(now + d))
  }

  function After(c: Counter, credentials: Credentials, now: int): Counter {
    match Answer(c, credentials, now)
    case Failed => AfterFailure(c, now)
    case LoggedIn => CLEAR
    case _ => c
  }

  class Account {
    var failedAttempts: int
    var lockoutUntil: Option<int>

    constructor ()
      ensures Throttle() == CLEAR
    {
      failedAttempts, lockoutUntil := 0, None;
    }

    ghost function Throttle(): Counter
      reads this
    {
      Counter(failedAttempts, lockoutUntil)
    }

    method Fail(now: int)
      modifies this
      ensures Throttle() == AfterFailure(old(Throttle()), now)
    {
      failedAttempts := failedAttempts + 1;
      var duration := LockoutDuration(failedAttempts);
      lockoutUntil := if duration.Some? then Some(now + duration.value) else None;
    }

    method Login(credentials: Credentials, now: int) returns (outcome: Outcome)
      modifies this
      ensures outcome == Answer(old(Throttle()), credentials, now)
      ensures Throttle() == After(old(Throttle()), credentials, now)
    {
      if lockoutUntil.Some? {
        if lockoutUntil.value > now {
          return LockedOut(lockoutUntil.value - now);
        }
      }
      if credentials.Wrong? {
        Fail(now);
        return Failed;
      }
      if credentials.Unverified? {
        return EmailNotVerified;
      }
      if credentials.WrongCode? {
        Fail(now);
        return Failed;
      }
      if credentials.MissingCode? {
        return MfaRequired;
      }
      failedAttempts, lockoutUntil := 0, None;
      return LoggedIn;
    }
  }

  // ---- How fast attempts can come

  function Wait(failures: nat): (secs: int)
    ensures secs >= 0
  {
    DurationIs(failures);
    match LockoutDuration(failures) case None => 0 case Some(d) => d
  }

  lemma DurationIs(failures: nat)
    ensures LockoutDuration(failures) ==
            if failures < 10 then None
            else if failures == 10 then Some(60)
            else if failures == 11 then Some(120)
            else if failures == 12 then Some(240)
            else if failures == 13 then Some(480)
            else if failures == 14 then Some(960)
            else if failures == 15 then Some(1920)
            else Some(3600)
  {
  }

  /** The least time from the first failure to the n-th. */
  function Earliest(n: nat): (secs: int)
    ensures secs >= 0
  {
    if n <= 1 then 0 else Earliest(n - 1) + Wait(n - 1)
  }

  lemma {:induction false} EarliestIs(n: nat)
    ensures n <= 10 ==> Earliest(n) == 0
    ensures n >= 16 ==> Earliest(n) == 3780 + 3600 * (n - 16)
  {
    if n > 1 {
      DurationIs(n - 1);
      EarliestIs(n - 1);
      if n == 16 {
        DurationIs(10);
        DurationIs(11);
        DurationIs(12);
        DurationIs(13);
        DurationIs(14);
        DurationIs(15);
        assert Earliest(10) == 0 by { EarliestIs(10); }
        assert Earliest(11) == 60 && Earliest(12) == 180 && Earliest(13) == 420;
        assert Earliest(14) == 900 && Earliest(15) == 1860 && Earliest(16) == 3780;
      }
    }
  }

  datatype Attempt = Attempt(credentials: Credentials, now: int)

  function Run(attempts: seq<Attempt>): Counter {
    if attempts == [] then CLEAR
    else
      var last := attempts[|attempts| - 1];
      After(Run(attempts[..|attempts| - 1]), last.credentials, last.now)
  }

  predicate ClockRuns(attempts: seq<Attempt>) {
    forall i | 0 < i < |attempts| :: attempts[i - 1].now <= attempts[i].now
  }

  function OutcomeAt(attempts: seq<Attempt>, i: nat): Outcome
    requires i < |attempts|
  {
    Answer(Run(attempts[..i]), attempts[i].credentials, attempts[i].now)
  }

  predicate NoSuccess(attempts: seq<Attempt>) {
    forall i | 0 <= i < |attempts| :: OutcomeAt(attempts, i) != LoggedIn
  }

  /** When the first failure was. */
  function FirstFailure(attempts: seq<Attempt>): Option<int> {
    if attempts == [] then None
    else
      match FirstFailure(attempts[..|attempts| - 1])
      case Some(t) => Some(t)
      case None =>
        if OutcomeAt(attempts, |attempts| - 1).Failed? then Some(attempts[|attempts| - 1].now) else None
  }

  /** What the counter guarantees about the next failure. */
  predicate Paced(c: Counter, first: Option<int>, clock: int) {
    && c.failedAttempts >= 0
    && (c.failedAttempts == 0 <==> first.None?)
    && (c.lockoutUntil.None? <==> c.failedAttempts < LOCKOUT_THRESHOLD)
    && (first.Some? ==>
          first.value <= clock
          && (c.lockoutUntil.Some? ==> c.lockoutUntil.value >= first.value + Earliest(c.failedAttempts + 1)))
  }

  lemma FailureIsPaced(c: Counter, first: Option<int>, clock: int, now: int)
    requires Paced(c, first, clock) && clock <= now
    requires c.lockoutUntil.Some? ==> c.lockoutUntil.value <= now
    ensures first.Some? ==> now >= first.value + Earliest(c.failedAttempts + 1)
    ensures Paced(AfterFailure(c, now), if first.Some? then first else Some(now), now)
  {
    var n := c.failedAttempts + 1;
    DurationIs(n);
    EarliestIs(n);
    assert Earliest(n + 1) == Earliest(n) + Wait(n);
  }

  lemma Prefix(attempts: seq<Attempt>)
    requires attempts != [] && ClockRuns(attempts) && NoSuccess(attempts)
    ensures ClockRuns(attempts[..|attempts| - 1]) && NoSuccess(attempts[..|attempts| - 1])
  {
    var init := attempts[..|attempts| - 1];
    forall i | 0 <= i < |init| ensures OutcomeAt(init, i) != LoggedIn {
      assert init[..i] == attempts[..i];
      assert OutcomeAt(attempts, i) != LoggedIn;
    }
  }

  lemma {:induction false} AlwaysPaced(attempts: seq<Attempt>)
    requires attempts != [] && ClockRuns(attempts) && NoSuccess(attempts)
    ensures Paced(Run(attempts), FirstFailure(attempts), attempts[|attempts| - 1].now)
    decreases |attempts|, 1
  {
    var n := |attempts| - 1;
    PacedBefore(attempts);
    assert OutcomeAt(attempts, n) != LoggedIn;
    if OutcomeAt(attempts, n).Failed? {
      FailureIsPaced(Run(attempts[..n]), FirstFailure(attempts[..n]), attempts[n].now, attempts[n].now);
    }
  }

  /** The state that the last attempt finds. */
  lemma {:induction false} PacedBefore(attempts: seq<Attempt>)
    requires attempts != [] && ClockRuns(attempts) && NoSuccess(attempts)
    ensures var n := |attempts| - 1;
            Paced(Run(attempts[..n]), FirstFailure(attempts[..n]), attempts[n].now)
    decreases |attempts|, 0
  {
    var n := |attempts| - 1;
    if n > 0 {
      Prefix(attempts);
      AlwaysPaced(attempts[..n]);
      assert attempts[n - 1].now <= attempts[n].now;
    }
  }

  /** How many attempts failed. */
  function Failures(attempts: seq<Attempt>): nat {
    if attempts == [] then 0
    else
      Failures(attempts[..|attempts| - 1]) + if OutcomeAt(attempts, |attempts| - 1).Failed? then 1 else 0
  }

  /** Without a success the stored counter is the number of failed attempts. */
  lemma {:induction false} CounterCounts(attempts: seq<Attempt>)
    requires ClockRuns(attempts) && NoSuccess(attempts)
    ensures Run(attempts).failedAttempts == Failures(attempts)
  {
    if attempts != [] {
      Prefix(attempts);
      CounterCounts(attempts[..|attempts| - 1]);
      assert OutcomeAt(attempts, |attempts| - 1) != LoggedIn;
    }
  }

  /** What a failed last attempt finds, and what it makes of it. */
  lemma LastFound(attempts: seq<Attempt>, c: Counter, first: Option<int>, now: int)
    requires attempts != [] && ClockRuns(attempts) && NoSuccess(attempts)
    requires OutcomeAt(attempts, |attempts| - 1).Failed?
    requires c == Run(attempts[..|attempts| - 1]) && first == FirstFailure(attempts[..|attempts| - 1])
    requires now == attempts[|attempts| - 1].now
    ensures Paced(c, first, now) && (c.lockoutUntil.Some? ==> c.lockoutUntil.value <= now)
    ensures Failures(attempts) == c.failedAttempts + 1
    ensures FirstFailure(attempts) == Some(if first.Some? then first.value else now)
  {
    PacedBefore(attempts);
    Prefix(attempts);
    CounterCounts(attempts[..|attempts| - 1]);
  }

  lemma Lateness(c: Counter, first: Option<int>, now: int, n: nat, since: int)
    requires Paced(c, first, now) && (c.lockoutUntil.Some? ==> c.lockoutUntil.value <= now)
    requires n == c.failedAttempts + 1 && since == if first.Some? then first.value else now
    ensures now >= since + Earliest(n) && (n >= 16 ==> now >= since + 3780 + 3600 * (n - 16))
  {
    FailureIsPaced(c, first, now, now);
    EarliestIs(n);
  }

  /** In any run without a success, the n-th failed attempt comes no sooner after the first than
      the lockouts between them. */
  lemma FailuresAreSpaced(attempts: seq<Attempt>)
    requires attempts != [] && ClockRuns(attempts) && NoSuccess(attempts)
    requires OutcomeAt(attempts, |attempts| - 1).Failed?
    ensures var n, now := Failures(attempts), attempts[|attempts| - 1].now;
            && n >= 1 && FirstFailure(attempts).Some?
            && now >= FirstFailure(attempts).value + Earliest(n)
            && (n >= 16 ==> now >= FirstFailure(attempts).value + 3780 + 3600 * (n - 16))
  {
    var k := |attempts| - 1;
    LastFound(attempts, Run(attempts[..k]), FirstFailure(attempts[..k]), attempts[k].now);
    Lateness(Run(attempts[..k]), FirstFailure(attempts[..k]), attempts[k].now,
             Failures(attempts), FirstFailure(attempts).value);
  }

  /** So any T seconds from the first failure hold at most 16 + T/3600 failed attempts. */
  lemma {:induction false} FewFailures(attempts: seq<Attempt>, secs: nat)
    requires attempts != [] && ClockRuns(attempts) && NoSuccess(attempts)
    requires FirstFailure(attempts).Some?
             && attempts[|attempts| - 1].now <= FirstFailure(attempts).value + secs
    ensures Failures(attempts) <= 16 + secs / 3600
  {
    var k := |attempts| - 1;
    if OutcomeAt(attempts, k).Failed? {
      FailuresAreSpaced(attempts);
    } else {
      Prefix(attempts);
      assert attempts[..k] != [] && attempts[k - 1].now <= attempts[k].now;
      FewFailures(attempts[..k], secs);
    }
  }

  // ---- Every answer, from the history of answers

  /** Failed attempts since the last success, and the latest of them. */
  function Streak(attempts: seq<Attempt>): nat {
    if attempts == [] then 0
    else
      match OutcomeAt(attempts, |attempts| - 1)
      case Failed => Streak(attempts[..|attempts| - 1]) + 1
      case LoggedIn => 0
      case _ => Streak(attempts[..|attempts| - 1])
  }

  function LatestFailure(attempts: seq<Attempt>): int {
    if attempts == [] then 0
    else if OutcomeAt(attempts, |attempts| - 1).Failed? then attempts[|attempts| - 1].now
    else LatestFailure(attempts[..|attempts| - 1])
  }

  lemma {:induction false} CounterIsStreak(attempts: seq<Attempt>)
    ensures var n := Streak(attempts);
            Run(attempts) ==
            Counter(n, if n < LOCKOUT_THRESHOLD then None else Some(LatestFailure(attempts) + Wait(n)))
  {
    if attempts != [] {
      CounterIsStreak(attempts[..|attempts| - 1]);
      DurationIs(Streak(attempts));
    }
  }

  /** The lock that a history leaves: from the tenth failure in a row on, for a minute after the
      latest, twice as long for each further one, an hour at most. */
  predicate Locked(attempts: seq<Attempt>, now: int) {
    Streak(attempts) >= 10 && now < LatestFailure(attempts) + Wait(Streak(attempts))
  }

  /** After any history, a login is answered as locked exactly while it is, with what is left of the
      lock; otherwise a wrong password or code fails, and nothing but the right credentials of a
      verified account, code included where one is needed, logs in. */
  lemma AnsweredExactly(attempts: seq<Attempt>, credentials: Credentials, now: int)
    ensures var answer := Answer(Run(attempts), credentials, now);
            && (answer.LockedOut? <==> Locked(attempts, now))
            && (answer.LockedOut? ==>
                answer.retryAfter > 0 && now + answer.retryAfter == LatestFailure(attempts) + Wait(Streak(attempts)))
            && (answer == Failed <==> !Locked(attempts, now) && credentials in {Wrong, WrongCode})
            && (answer == LoggedIn <==> !Locked(attempts, now) && credentials == Right)
            && (answer == EmailNotVerified <==> !Locked(attempts, now) && credentials == Unverified)
            && (answer == MfaRequired <==> !Locked(attempts, now) && credentials == MissingCode)
  {
    CounterIsStreak(attempts);
  }

  // ---- The bound is met

  /** The impatient attacker: fail whenever allowed. */
  function Impatient(n: nat): seq<Attempt> {
    if n == 0 then [] else Impatient(n - 1) + [Attempt(Wrong, Earliest(n))]
  }

  /** That schedule is let through every time, so the spacing bound cannot be raised. */
  lemma {:induction false} ImpatientFails(n: nat)
    requires n > 0
    ensures |Impatient(n)| == n && Impatient(n)[n - 1] == Attempt(Wrong, Earliest(n))
    ensures OutcomeAt(Impatient(n), n - 1) == Failed
    ensures Run(Impatient(n)) == Counter(n, if n < LOCKOUT_THRESHOLD then None else Some(Earliest(n + 1)))
  {
    var before, last := Impatient(n - 1), Attempt(Wrong, Earliest(n));
    if n > 1 {
      ImpatientFails(n - 1);
    }
    assert Impatient(n) == before + [last] && (before + [last])[..n - 1] == before;
    NextFailure(n);
    assert Run(before + [last]) == After(Run(before), Wrong, Earliest(n));
  }

  lemma NextFailure(n: nat)
    requires n > 0
    ensures var c := Counter(n - 1, if n - 1 < LOCKOUT_THRESHOLD then None else Some(Earliest(n)));
            && Answer(c, Wrong, Earliest(n)) == Failed
            && After(c, Wrong, Earliest(n))
               == Counter(n, if n < LOCKOUT_THRESHOLD then None else Some(Earliest(n + 1)))
  {
    DurationIs(n);
    assert Earliest(n + 1) == Earliest(n) + Wait(n);
  }
}
