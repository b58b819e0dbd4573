/** The per-IP failure budget (server/vault-server/src/rate_limit.rs:14-46).

    The limiter keeps pruned times; what it should answer is a question about the complete history
    of failures. */
module RateLimit {
  import opened Wrappers

  type Ip = nat

  const WINDOW_SECS := 15 * 60
  const MAX_FAILURES_PER_WINDOW := 20
  const COLLECT_ABOVE := 10_000

  // ---- The statements

  /** The times still inside the window. */
  function Recent(times: seq<int>, now: int): (kept: seq<int>)
    ensures |kept| <= |times|
    ensures forall t | t in kept :: t in times && now - t < WINDOW_SECS
  {
    if times == [] then []
    else
      var init, last := times[..|times| - 1], times[|times| - 1];
      if now - last < WINDOW_SECS then Recent(init, now) + [last] else Recent(init, now)
  }

  function Oldest(times: seq<int>): (oldest: int)
    requires times != []
    ensures oldest in times && forall t | t in times :: oldest <= t
  {
    if |times| == 1 then times[0]
    else
      assert times == [times[0]] + times[1..];
      var rest := Oldest(times[1..]);
      if times[0] <= rest then times[0] else rest
  }

  /** Whether the recent failures exhaust the budget, and for how long. */
  function Verdict(recent: seq<int>, now: int): Option<int> {
    if |recent| >= MAX_FAILURES_PER_WINDOW then
      var wait := Oldest(recent) + WINDOW_SECS - now;
      Some(if wait >= 1 then wait else 1)
    else None
  }

  type Failures = map<Ip, seq<int>>

  function Stored(failures: Failures, ip: Ip): seq<int> {
    if ip in failures then failures[ip] else []
  }

  function AfterCheck(failures: Failures, ip: Ip, now: int): Failures {
    if ip !in failures then failures
    else if Recent(failures[ip], now) == [] then failures - {ip}
    else failures[ip := Recent(failures[ip], now)]
  }

  predicate AnyRecent(times: seq<int>, now: int) {
    exists t | t in times :: now - t < WINDOW_SECS
  }

  function Collected(failures: Failures, now: int): Failures {
    if |failures| > COLLECT_ABOVE then
      map ip | ip in failures && AnyRecent(failures[ip], now) :: failures[ip]
    else failures
  }

  function AfterRecord(failures: Failures, ip: Ip, now: int): Failures {
    var kept := Collected(failures, now);
    kept[ip := Stored(kept, ip) + [now]]
  }

  class IpLimiter {
    var failures: Failures

    constructor ()
      ensures failures == map[]
    {
      failures := map[];
    }

    method Check(ip: Ip, now: int) returns (retryAfter: Option<int>)
      modifies this
      ensures retryAfter == Verdict(Recent(Stored(old(failures), ip), now), now)
      ensures failures == AfterCheck(old(failures), ip, now)
    {
      if ip !in failures {
        return None;
      }
      var times := Recent(failures[ip], now);
      if |times| == 0 {
        failures := failures - {ip};
        return None;
      }
      failures := failures[ip := times];
      if |times| >= MAX_FAILURES_PER_WINDOW {
        var wait := Oldest(times) + WINDOW_SECS - now;
        return Some(if wait >= 1 then wait else 1);
      }
      return None;
    }

    method RecordFailure(ip: Ip, now: int)
      modifies this
      ensures failures == AfterRecord(old(failures), ip, now)
    {
      if |failures| > COLLECT_ABOVE {
        failures := map other | other in failures && AnyRecent(failures[other], now) :: failures[other];
      }
      failures := failures[ip := Stored(failures, ip) + [now]];
    }
  }

  lemma {:induction false} SomeRecent(times: seq<int>, now: int)
    ensures Recent(times, now) != [] <==> AnyRecent(times, now)
  {
    if times != [] {
      var init, last := times[..|times| - 1], times[|times| - 1];
      assert times == init + [last];
      assert last in times;
      SomeRecent(init, now);
      if AnyRecent(init, now) {
        var t :| t in init && now - t < WINDOW_SECS;
        assert t in times;
      }
      if AnyRecent(times, now) && now - last >= WINDOW_SECS {
        var t :| t in times && now - t < WINDOW_SECS;
        assert t in init;
      }
    }
  }

  // ---- The complete history

  datatype Failure = Failure(ip: Ip, at: int)

  function TimesOf(log: seq<Failure>, ip: Ip): seq<int> {
    if log == [] then []
    else
      var init, last := log[..|log| - 1], log[|log| - 1];
      if last.ip == ip then TimesOf(init, ip) + [last.at] else TimesOf(init, ip)
  }

  function LogVerdict(log: seq<Failure>, ip: Ip, now: int): Option<int> {
    Verdict(Recent(TimesOf(log, ip), now), now)
  }

  /** The limiter has everything of the history that any later check can need. */
  ghost predicate Faithful(failures: Failures, log: seq<Failure>, clock: int) {
    forall ip :: Recent(Stored(failures, ip), clock) == Recent(TimesOf(log, ip), clock)
  }

  lemma RecentAppend(times: seq<int>, t: int, now: int)
    ensures Recent(times + [t], now) == Recent(times, now) + if now - t < WINDOW_SECS then [t] else []
  {
    assert (times + [t])[..|times|] == times;
  }

  /** Pruning early loses nothing that a later look would keep. */
  lemma {:induction false} RecentLater(times: seq<int>, a: int, b: int)
    requires a <= b
    ensures Recent(Recent(times, a), b) == Recent(times, b)
  {
    if times != [] {
      var init, last := times[..|times| - 1], times[|times| - 1];
      RecentLater(init, a, b);
      RecentAppend(Recent(init, a), last, b);
    }
  }

  lemma FaithfulLater(failures: Failures, log: seq<Failure>, a: int, b: int)
    requires Faithful(failures, log, a) && a <= b
    ensures Faithful(failures, log, b)
  {
    forall ip ensures Recent(Stored(failures, ip), b) == Recent(TimesOf(log, ip), b) {
      RecentLater(Stored(failures, ip), a, b);
      RecentLater(TimesOf(log, ip), a, b);
    }
  }

  lemma CheckStaysFaithful(failures: Failures, log: seq<Failure>, ip: Ip, now: int)
    requires Faithful(failures, log, now)
    ensures Faithful(AfterCheck(failures, ip, now), log, now)
  {
    forall other ensures Recent(Stored(AfterCheck(failures, ip, now), other), now) == Recent(TimesOf(log, other), now) {
      RecentLater(Stored(failures, other), now, now);
      assert Recent(Stored(failures, other), now) == Recent(TimesOf(log, other), now);
    }
  }

  lemma CollectionStaysFaithful(failures: Failures, log: seq<Failure>, now: int)
    requires Faithful(failures, log, now)
    ensures Faithful(Collected(failures, now), log, now)
  {
    forall ip ensures Recent(Stored(Collected(failures, now), ip), now) == Recent(TimesOf(log, ip), now) {
      SomeRecent(Stored(failures, ip), now);
      assert Recent(Stored(failures, ip), now) == Recent(TimesOf(log, ip), now);
    }
  }

  lemma RecordStaysFaithful(failures: Failures, log: seq<Failure>, ip: Ip, now: int)
    requires Faithful(failures, log, now)
    ensures Faithful(AfterRecord(failures, ip, now), log + [Failure(ip, now)], now)
  {
    CollectionStaysFaithful(failures, log, now);
    var kept := Collected(failures, now);
    assert (log + [Failure(ip, now)])[..|log|] == log;
    forall other
      ensures Recent(Stored(AfterRecord(failures, ip, now), other), now)
           == Recent(TimesOf(log + [Failure(ip, now)], other), now)
    {
      assert Recent(Stored(kept, other), now) == Recent(TimesOf(log, other), now);
      RecentAppend(Stored(kept, other), now, now);
      RecentAppend(TimesOf(log, other), now, now);
    }
  }

  // ---- Runs

  datatype Step = Checks(ip: Ip, now: int) | Records(ip: Ip, now: int)

  datatype State = State(failures: Failures, log: seq<Failure>, clock: int)

  function Next(s: State, step: Step): State {
    match step
    case Checks(ip, now) => State(AfterCheck(s.failures, ip, now), s.log, now)
    case Records(ip, now) => State(AfterRecord(s.failures, ip, now), s.log + [Failure(ip, now)], now)
  }

  function Run(start: int, steps: seq<Step>): State {
    if steps == [] then State(map[], [], start)
    else Next(Run(start, steps[..|steps| - 1]), steps[|steps| - 1])
  }

  predicate InOrder(start: int, steps: seq<Step>, i: nat)
    requires i < |steps|
  {
    (if i == 0 then start else steps[i - 1].now) <= steps[i].now
  }

  predicate ClockRuns(start: int, steps: seq<Step>) {
    forall i | 0 <= i < |steps| :: InOrder(start, steps, i)
  }

  lemma PrefixInOrder(start: int, steps: seq<Step>, n: nat)
    requires ClockRuns(start, steps) && n <= |steps|
    ensures ClockRuns(start, steps[..n])
  {
    forall i | 0 <= i < n ensures InOrder(start, steps[..n], i) {
      assert InOrder(start, steps, i);
    }
  }

  lemma {:induction false} AlwaysFaithful(start: int, steps: seq<Step>)
    requires ClockRuns(start, steps)
    ensures var s := Run(start, steps);
            && Faithful(s.failures, s.log, s.clock)
            && s.clock == if steps == [] then start else steps[|steps| - 1].now
  {
    if steps != [] {
      var init, last := steps[..|steps| - 1], steps[|steps| - 1];
      PrefixInOrder(start, steps, |init|);
      AlwaysFaithful(start, init);
      assert InOrder(start, steps, |init|);
      var s := Run(start, init);
      FaithfulLater(s.failures, s.log, s.clock, last.now);
      match last
      case Checks(ip, now) => CheckStaysFaithful(s.failures, s.log, ip, now);
      case Records(ip, now) => RecordStaysFaithful(s.failures, s.log, ip, now);
    }
  }

  /** After any run, a check answers what the complete history says. */
  lemma ChecksTheFullLog(start: int, steps: seq<Step>, ip: Ip, now: int)
    requires ClockRuns(start, steps + [Checks(ip, now)])
    ensures var s := Run(start, steps);
            Verdict(Recent(Stored(s.failures, ip), now), now) == LogVerdict(s.log, ip, now)
  {
    var all := steps + [Checks(ip, now)];
    PrefixInOrder(start, all, |steps|);
    assert all[..|steps|] == steps;
    AlwaysFaithful(start, steps);
    assert InOrder(start, all, |steps|);
    FaithfulLater(Run(start, steps).failures, Run(start, steps).log, Run(start, steps).clock, now);
  }

  // ---- The budget

  /** Failures of one address from `from` on, for less than a window. */
  function InWindow(log: seq<Failure>, ip: Ip, from: int): nat {
    if log == [] then 0
    else
      var last := log[|log| - 1];
      InWindow(log[..|log| - 1], ip, from) +
      if last.ip == ip && from <= last.at < from + WINDOW_SECS then 1 else 0
  }

  /** A record comes right after a check, at the same time, that let its address through. */
  predicate Admitted(start: int, steps: seq<Step>, i: nat)
    requires i < |steps|
  {
    steps[i].Records? ==>
      var (ip, now) := (steps[i].ip, steps[i].now);
      i > 0 && steps[i - 1] == Checks(ip, now)
      && Verdict(Recent(Stored(Run(start, steps[..i - 1]).failures, ip), now), now).None?
  }

  predicate Metered(start: int, steps: seq<Step>) {
    forall i | 0 <= i < |steps| :: Admitted(start, steps, i)
  }

  lemma PrefixMetered(start: int, steps: seq<Step>, n: nat)
    requires Metered(start, steps) && n <= |steps|
    ensures Metered(start, steps[..n])
  {
    forall i | 0 <= i < n ensures Admitted(start, steps[..n], i) {
      assert Admitted(start, steps, i);
      if i > 0 {
        assert steps[..n][..i - 1] == steps[..i - 1];
      }
    }
  }

  /** What the check let through, the history would have too. */
  lemma AdmittedByTheLog(start: int, steps: seq<Step>, n: nat)
    requires ClockRuns(start, steps) && n < |steps| && Admitted(start, steps, n) && steps[n].Records?
    ensures LogVerdict(Run(start, steps[..n]).log, steps[n].ip, steps[n].now).None?
  {
    var before, check := steps[..n - 1], Checks(steps[n].ip, steps[n].now);
    assert steps[..n] == before + [check] && (before + [check])[..n - 1] == before;
    PrefixInOrder(start, steps, n);
    ChecksTheFullLog(start, before, check.ip, check.now);
  }

  lemma {:induction false} WindowIsRecent(log: seq<Failure>, ip: Ip, from: int, now: int)
    requires now < from + WINDOW_SECS
    ensures InWindow(log, ip, from) <= |Recent(TimesOf(log, ip), now)|
  {
    if log != [] {
      var init, last := log[..|log| - 1], log[|log| - 1];
      WindowIsRecent(init, ip, from, now);
      if last.ip == ip {
        RecentAppend(TimesOf(init, ip), last.at, now);
      }
    }
  }

  /** If the limiter let every record through just before, no address has more than twenty failures in
      any fifteen minutes. */
  lemma {:induction false} BudgetHolds(start: int, steps: seq<Step>, ip: Ip, from: int)
    requires ClockRuns(start, steps) && Metered(start, steps)
    ensures InWindow(Run(start, steps).log, ip, from) <= MAX_FAILURES_PER_WINDOW
  {
    if steps != [] {
      var n := |steps| - 1;
      var init, last := steps[..n], steps[n];
      PrefixInOrder(start, steps, n);
      PrefixMetered(start, steps, n);
      BudgetHolds(start, init, ip, from);
      if last.Records? {
        var log := Run(start, init).log;
        assert Admitted(start, steps, n);
        AdmittedByTheLog(start, steps, n);
        assert (log + [Failure(last.ip, last.now)])[..|log|] == log;
        if last.ip == ip && from <= last.now < from + WINDOW_SECS {
          WindowIsRecent(log, ip, from, last.now);
        }
      }
    }
  }

  // ---- The verdict and what is kept, in plain numbers

  /** The places in the history of an address's failures of the last fifteen minutes. */
  function RecentPlaces(log: seq<Failure>, ip: Ip, now: int): set<nat> {
    set k: nat | k < |log| && log[k].ip == ip && now - log[k].at < 15 * 60
  }

  lemma {:induction false} RecentCounts(log: seq<Failure>, ip: Ip, now: int)
    ensures |Recent(TimesOf(log, ip), now)| == |RecentPlaces(log, ip, now)|
  {
    if log != [] {
      var n := |log| - 1;
      RecentCounts(log[..n], ip, now);
      if log[n].ip == ip {
        RecentAppend(TimesOf(log[..n], ip), log[n].at, now);
      }
      assert RecentPlaces(log, ip, now) ==
             RecentPlaces(log[..n], ip, now) + if log[n].ip == ip && now - log[n].at < 15 * 60 then {n} else {};
    }
  }

  /** What is recent stays so until the oldest of it leaves. */
  lemma {:induction false} RecentUntil(times: seq<int>, now: int, later: int, oldest: int)
    requires now <= later && forall t | t in Recent(times, now) :: oldest <= t
    ensures later < oldest + WINDOW_SECS ==> Recent(times, later) == Recent(times, now)
    ensures |Recent(times, later)| <= |Recent(times, now)|
    ensures later >= oldest + WINDOW_SECS && oldest in Recent(times, now) ==>
              |Recent(times, later)| < |Recent(times, now)|
  {
    if times != [] {
      var init, last := times[..|times| - 1], times[|times| - 1];
      assert forall t | t in Recent(init, now) :: t in Recent(times, now);
      RecentUntil(init, now, later, oldest);
      if now - last < WINDOW_SECS {
        assert Recent(times, now) == Recent(init, now) + [last];
        assert last in Recent(times, now) && oldest <= last;
      }
    }
  }

  /** An address is limited exactly when it failed twenty times in the last fifteen minutes. Until the
      seconds it is told to wait are over it stays limited, and then one failure less counts. */
  lemma LimitsExactly(log: seq<Failure>, ip: Ip, now: int)
    ensures LogVerdict(log, ip, now).Some? <==> |RecentPlaces(log, ip, now)| >= 20
    ensures var verdict := LogVerdict(log, ip, now);
            verdict.Some? ==>
              && verdict.value > 0
              && (forall later | now <= later < now + verdict.value :: LogVerdict(log, ip, later).Some?)
              && |RecentPlaces(log, ip, now + verdict.value)| < |RecentPlaces(log, ip, now)|
  {
    RecentCounts(log, ip, now);
    var times := TimesOf(log, ip);
    var recent := Recent(times, now);
    if LogVerdict(log, ip, now).Some? {
      var end := now + LogVerdict(log, ip, now).value;
      RecentCounts(log, ip, end);
      RecentUntil(times, now, end, Oldest(recent));
      forall later | now <= later < end ensures LogVerdict(log, ip, later).Some? {
        RecentUntil(times, now, later, Oldest(recent));
      }
    }
  }

  /** What a check and a record keep. A check leaves of its address only what is recent, and no entry
      for nothing; a record made while more than ten thousand addresses are stored leaves only
      addresses with a recent failure. No other address is touched. */
  lemma KeepsExactly(failures: Failures, ip: Ip, other: Ip, now: int)
    ensures var checked := AfterCheck(failures, ip, now);
            && (ip in checked <==> Recent(Stored(failures, ip), now) != [])
            && (ip in checked ==> checked[ip] == Recent(Stored(failures, ip), now))
            && (other != ip ==> (other in checked <==> other in failures) && Stored(checked, other) == Stored(failures, other))
    ensures var recorded := AfterRecord(failures, ip, now);
            other != ip ==>
              && (other in recorded <==>
                  other in failures && (|failures| <= 10_000 || exists t | t in failures[other] :: now - t < 15 * 60))
              && (other in recorded ==> recorded[other] == failures[other])
  {
  }
}
