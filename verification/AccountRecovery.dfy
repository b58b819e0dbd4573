/** Account recovery requests (server/vault-server/src/routes/recovery.rs:41-127, 153-173, 261-423),
    run together with the session handlers.

    A request's completion and cancel tokens are drawn together, so a draw names the request. The
    cooling-off length is configuration. Each handler is one step. */
module AccountRecovery {
  import opened Wrappers
  import Sessions
  import RateLimit

  type AccountId = Sessions.AccountId
  type Draw = nat
  type Verifier = nat
  /** A password hash, parameters, salt and wrapped keys, as one opaque value. */
  type Bundle = nat
  type ItemName = nat

  const COMPLETION_WINDOW_SECS := 7 * 24 * 3600

  datatype Request = Request(account: AccountId, createdAt: int, usableAt: int, expiresAt: int,
                             cancelledAt: Option<int>, completedAt: Option<int>)

  type Requests = map<Draw, Request>

  predicate Pending(request: Request) {
    request.cancelledAt.None? && request.completedAt.None?
  }

  // ---- The handlers

  /** What a completion presents; `wellFormed` says that the replacement bundle decodes and its
      parameters are acceptable. */
  datatype Presented = NoVerifier | Undecodable | Verifier(value: Verifier)

  datatype Completion = Completion(token: Draw, wellFormed: bool, presented: Presented, wipe: bool,
                                   newBundle: Bundle, newVerifier: Verifier)

  datatype Answer =
    | Completed(dataPreserved: bool)
    | InvalidToken
    | CoolingOff(retryAfter: int)
    | BadRequest
    | InvalidCredentials
    | RateLimited(retryAfter: int)

  function Supersede(requests: Requests, account: AccountId, now: int): Requests {
    map draw | draw in requests ::
      if requests[draw].account == account && Pending(requests[draw])
      then requests[draw].(cancelledAt := Some(now)) else requests[draw]
  }

  function Opened(requests: Requests, account: AccountId, drawn: Draw, cooloff: nat, now: int): Requests {
    var usableAt := now + cooloff;
    Supersede(requests, account, now)
      [drawn := Request(account, now, usableAt, usableAt + COMPLETION_WINDOW_SECS, None, None)]
  }

  function FindActive(requests: Requests, token: Draw, now: int): Option<Request> {
    if token in requests && Pending(requests[token]) && requests[token].expiresAt > now
    then Some(requests[token]) else None
  }

  function CompleteAnswer(requests: Requests, verifiers: map<AccountId, Verifier>, c: Completion, now: int): Answer {
    match FindActive(requests, c.token, now)
    case None => InvalidToken
    case Some(request) =>
      if request.usableAt > now then CoolingOff(request.usableAt - now)
      else if !c.wellFormed then BadRequest
      else
        match c.presented
        case Undecodable => BadRequest
        case Verifier(v) =>
          if request.account in verifiers && verifiers[request.account] == v then Completed(true)
          else InvalidCredentials
        case NoVerifier => if c.wipe then Completed(false) else BadRequest
  }

  predicate Cancels(requests: Requests, token: Draw) {
    token in requests && Pending(requests[token])
  }

  function Cancelled(requests: Requests, token: Draw, now: int): Requests {
    if Cancels(requests, token) then requests[token := requests[token].(cancelledAt := Some(now))]
    else requests
  }

  /** The tables a recovery touches. An account from before verifiers has none. */
  datatype Tables = Tables(requests: Requests, bundles: map<AccountId, Bundle>, verifiers: map<AccountId, Verifier>,
                           items: map<AccountId, set<ItemName>>, sessions: Sessions.Table)

  function Items(items: map<AccountId, set<ItemName>>, account: AccountId): set<ItemName> {
    if account in items then items[account] else {}
  }

  function CompleteTables(t: Tables, c: Completion, now: int): Tables {
    match CompleteAnswer(t.requests, t.verifiers, c, now)
    case Completed(preserved) =>
      var request := t.requests[c.token];
      Tables(t.requests[c.token := request.(completedAt := Some(now))],
             t.bundles[request.account := c.newBundle],
             t.verifiers[request.account := c.newVerifier],
             if preserved then t.items else t.items[request.account := {}],
             Sessions.EndAllRows(t.sessions, request.account, now))
    case _ => t
  }

  class RecoveryDesk {
    var requests: Requests
    var bundles: map<AccountId, Bundle>
    var verifiers: map<AccountId, Verifier>
    var items: map<AccountId, set<ItemName>>
    const sessions: Sessions.SessionTable
    const limiter: RateLimit.IpLimiter
    const cooloff: nat

    constructor (sessions: Sessions.SessionTable, limiter: RateLimit.IpLimiter, cooloff: nat)
      ensures this.sessions == sessions && this.limiter == limiter && this.cooloff == cooloff
      ensures requests == map[] && bundles == map[] && verifiers == map[] && items == map[]
    {
      this.sessions, this.limiter, this.cooloff := sessions, limiter, cooloff;
      requests, bundles, verifiers, items := map[], map[], map[], map[];
    }

    ghost function View(): Tables
      reads this, sessions
    {
      Tables(requests, bundles, verifiers, items, sessions.rows)
    }

    /** What the limiter says to an address. */
    ghost function Limit(ip: RateLimit.Ip, now: int): Option<int>
      reads limiter
    {
      RateLimit.Verdict(RateLimit.Recent(RateLimit.Stored(limiter.failures, ip), now), now)
    }

    /** Every start counts against its address. It always answers the same; only an existing account
        gets a request. */
    method Start(ip: RateLimit.Ip, account: Option<AccountId>, drawn: Draw, now: int) returns (limited: Option<int>)
      modifies this, limiter
      ensures limited == old(Limit(ip, now))
      ensures var checked := RateLimit.AfterCheck(old(limiter.failures), ip, now);
              limiter.failures == if limited.Some? then checked else RateLimit.AfterRecord(checked, ip, now)
      ensures View() == old(View()).(requests :=
                if limited.Some? || account.None? then old(requests)
                else Opened(old(requests), account.value, drawn, cooloff, now))
    {
      limited := limiter.Check(ip, now);
      if limited.Some? {
        return;
      }
      limiter.RecordFailure(ip, now);
      if account.None? {
        return;
      }
      requests := Supersede(requests, account.value, now);
      var usableAt := now + cooloff;
      requests := requests[drawn := Request(account.value, now, usableAt, usableAt + COMPLETION_WINDOW_SECS, None, None)];
    }

    /** A wrong token and a wrong verifier count against the address. */
    method Complete(ip: RateLimit.Ip, c: Completion, now: int) returns (answer: Answer)
      modifies this, sessions, limiter
      ensures answer == match old(Limit(ip, now))
                        case Some(retryAfter) => RateLimited(retryAfter)
                        case None => CompleteAnswer(old(requests), old(verifiers), c, now)
      ensures View() == if answer.RateLimited? then old(View()) else CompleteTables(old(View()), c, now)
      ensures var checked := RateLimit.AfterCheck(old(limiter.failures), ip, now);
              limiter.failures ==
                if answer.InvalidToken? || answer.InvalidCredentials? then RateLimit.AfterRecord(checked, ip, now)
                else checked
    {
      var limited := limiter.Check(ip, now);
      if limited.Some? {
        return RateLimited(limited.value);
      }
      var found := FindActive(requests, c.token, now);
      if found.None? {
        limiter.RecordFailure(ip, now);
        return InvalidToken;
      }
      var request := found.value;
      if request.usableAt > now {
        return CoolingOff(request.usableAt - now);
      }
      if !c.wellFormed {
        return BadRequest;
      }
      var preserve;
      match c.presented {
        case Undecodable => return BadRequest;
        case Verifier(v) =>
          if !(request.account in verifiers && verifiers[request.account] == v) {
            limiter.RecordFailure(ip, now);
            return InvalidCredentials;
          }
          preserve := true;
        case NoVerifier =>
          if !c.wipe {
            return BadRequest;
          }
          preserve := false;
      }
      if !preserve {
        items := items[request.account := {}];
      }
      bundles := bundles[request.account := c.newBundle];
      verifiers := verifiers[request.account := c.newVerifier];
      var _ := sessions.Update(Sessions.WholeAccount(request.account), now);
      requests := requests[c.token := request.(completedAt := Some(now))];
      return Completed(preserve);
    }

    method Cancel(token: Draw, now: int) returns (ok: bool)
      modifies this
      ensures ok == Cancels(old(requests), token)
      ensures View() == old(View()).(requests := Cancelled(old(requests), token, now))
    {
      if !Cancels(requests, token) {
        return false;
      }
      requests := requests[token := requests[token].(cancelledAt := Some(now))];
      return true;
    }
  }

  // ---- Runs of the whole server

  /** The tables with their past; the clock is the sessions' clock. */
  datatype State = State(requests: Requests, drawn: set<Draw>, bundles: map<AccountId, Bundle>,
                         verifiers: map<AccountId, Verifier>, items: map<AccountId, set<ItemName>>, sessions: Sessions.State)

  /** Requests that the IP limiter turns away are no steps. `Registers` and `Stores` stand for the
      handlers elsewhere that give an account its bundle and verifier, and its items;
      `OnSessions` is a session handler. */
  datatype Step =
    | Starts(target: Option<AccountId>, pair: Draw, now: int)
    | Completes(completion: Completion, now: int)
    | CancelsBy(token: Draw, now: int)
    | ChangesPassword(access: Sessions.Draw, bundle: Bundle, verifier: Verifier, now: int)
    | OnSessions(step: Sessions.Step)
    | Registers(account: AccountId, bundle: Bundle, verifier: Verifier, now: int)
    | Stores(account: AccountId, item: ItemName, now: int)

  const START := State(map[], {}, map[], map[], map[], Sessions.START)

  function Now(step: Step): int {
    if step.OnSessions? then step.step.now else step.now
  }

  function Answered(s: State, step: Step): Answer
    requires step.Completes?
  {
    CompleteAnswer(s.requests, s.verifiers, step.completion, step.now)
  }

  predicate Succeeds(s: State, step: Step) {
    step.Completes? && Answered(s, step).Completed?
  }

  /** What a step does to the sessions, if anything. */
  function SessionPart(s: State, step: Step): Option<Sessions.Step> {
    match step
    case OnSessions(part) => Some(part)
    case ChangesPassword(access, _, _, now) => Some(Sessions.RevokeOthers(access, now))
    case Completes(c, now) =>
      if Succeeds(s, step) then Some(Sessions.EndAll(s.requests[c.token].account, now)) else None
    case _ => None
  }

  function NextSessions(s: State, step: Step): Sessions.State {
    match SessionPart(s, step)
    case None => s.sessions.(clock := Now(step))
    case Some(part) => Sessions.Next(s.sessions, part)
  }

  function ViewOf(s: State): Tables {
    Tables(s.requests, s.bundles, s.verifiers, s.items, s.sessions.rows)
  }

  function Next(cooloff: nat, s: State, step: Step): State {
    var ticked := s.(sessions := NextSessions(s, step));
    match step
    case Starts(target, pair, now) =>
      if target.None? then ticked
      else ticked.(requests := Opened(s.requests, target.value, pair, cooloff, now), drawn := s.drawn + {pair})
    case Completes(c, now) =>
      var after := CompleteTables(ViewOf(s), c, now);
      ticked.(requests := after.requests, bundles := after.bundles, verifiers := after.verifiers,
              items := after.items)
    case CancelsBy(token, now) => ticked.(requests := Cancelled(s.requests, token, now))
    case ChangesPassword(access, bundle, verifier, now) =>
      (match Sessions.Authenticate(s.sessions.rows, access, now)
       case None => ticked
       case Some(caller) =>
         ticked.(bundles := s.bundles[caller.account := bundle],
                 verifiers := s.verifiers[caller.account := verifier]))
    case OnSessions(_) => ticked
    case Registers(account, bundle, verifier, _) =>
      ticked.(bundles := s.bundles[account := bundle], verifiers := s.verifiers[account := verifier])
    case Stores(account, item, _) => ticked.(items := s.items[account := Items(s.items, account) + {item}])
  }

  predicate Possible(s: State, step: Step) {
    && s.sessions.clock <= Now(step)
    && (step.Starts? && step.target.Some? ==> step.pair !in s.drawn)
    && (step.OnSessions? ==> !step.step.EndAll? && Sessions.Possible(s.sessions, step.step))
  }

  predicate StepAt(cooloff: nat, trace: seq<State>, steps: seq<Step>, i: nat)
    requires i < |steps| && |trace| == |steps| + 1
  {
    Possible(trace[i], steps[i]) && trace[i + 1] == Next(cooloff, trace[i], steps[i])
  }

  /** A run from any table as the migration to recovery requests found it: accounts with bundles and
      items, none with a verifier, and no request yet. */
  ghost predicate Execution(cooloff: nat, trace: seq<State>, steps: seq<Step>) {
    && |trace| == |steps| + 1 && Sessions.Migrated(trace[0].sessions)
    && trace[0] == START.(sessions := trace[0].sessions, bundles := trace[0].bundles, items := trace[0].items)
    && forall i | 0 <= i < |steps| :: StepAt(cooloff, trace, steps, i)
  }

  // ---- What every step keeps

  predicate RequestHolds(cooloff: nat, request: Request) {
    && request.usableAt == request.createdAt + cooloff
    && request.expiresAt == request.usableAt + COMPLETION_WINDOW_SECS
    && (request.cancelledAt.None? || request.completedAt.None?)
  }

  ghost predicate Tidy(cooloff: nat, s: State) {
    Sessions.Sound(s.sessions) && s.requests.Keys <= s.drawn && RequestsTidy(cooloff, s.requests)
  }

  lemma SessionsStep(cooloff: nat, s: State, step: Step)
    requires Sessions.Sound(s.sessions) && Possible(s, step)
    ensures var s' := Next(cooloff, s, step);
            && s'.sessions == NextSessions(s, step)
            && (SessionPart(s, step).Some? ==> Sessions.Possible(s.sessions, SessionPart(s, step).value))
            && Sessions.Sound(s'.sessions)
  {
    if SessionPart(s, step).Some? {
      Sessions.StepKeepsSound(s.sessions, SessionPart(s, step).value);
    } else {
      Sessions.TimePasses(s.sessions, Now(step));
    }
  }

  /** Requests keep their window, and an account has at most one pending. */
  ghost predicate RequestsTidy(cooloff: nat, requests: Requests) {
    && (forall draw | draw in requests :: RequestHolds(cooloff, requests[draw]))
    && (forall p, q | p in requests && q in requests && Pending(requests[p]) && Pending(requests[q])
          && requests[p].account == requests[q].account :: p == q)
  }

  lemma OpeningIsTidy(cooloff: nat, requests: Requests, account: AccountId, drawn: Draw, now: int)
    requires RequestsTidy(cooloff, requests) && drawn !in requests
    ensures RequestsTidy(cooloff, Opened(requests, account, drawn, cooloff, now))
  {
  }

  lemma StepKeepsTidy(cooloff: nat, s: State, step: Step)
    requires Tidy(cooloff, s) && Possible(s, step)
    ensures Tidy(cooloff, Next(cooloff, s, step))
  {
    SessionsStep(cooloff, s, step);
    if step.Starts? && step.target.Some? {
      OpeningIsTidy(cooloff, s.requests, step.target.value, step.pair, step.now);
    }
  }

  lemma {:induction false} AlwaysTidy(cooloff: nat, trace: seq<State>, steps: seq<Step>, i: nat)
    requires Execution(cooloff, trace, steps) && i <= |steps|
    ensures Tidy(cooloff, trace[i])
  {
    if i > 0 {
      AlwaysTidy(cooloff, trace, steps, i - 1);
      assert StepAt(cooloff, trace, steps, i - 1);
      StepKeepsTidy(cooloff, trace[i - 1], steps[i - 1]);
    }
  }

  /** A request that was completed, cancelled or superseded never changes again. */
  lemma ClosedStays(cooloff: nat, s: State, step: Step, draw: Draw)
    requires Tidy(cooloff, s) && Possible(s, step) && draw in s.requests && !Pending(s.requests[draw])
    ensures var s' := Next(cooloff, s, step); draw in s'.requests && s'.requests[draw] == s.requests[draw]
  {
  }

  lemma {:induction false} ClosedForGood(cooloff: nat, trace: seq<State>, steps: seq<Step>, i: nat, j: nat, draw: Draw)
    requires Execution(cooloff, trace, steps) && i <= j <= |steps|
    requires draw in trace[i].requests && !Pending(trace[i].requests[draw])
    ensures draw in trace[j].requests && trace[j].requests[draw] == trace[i].requests[draw]
    decreases j
  {
    if i < j {
      ClosedForGood(cooloff, trace, steps, i, j - 1, draw);
      AlwaysTidy(cooloff, trace, steps, j - 1);
      assert StepAt(cooloff, trace, steps, j - 1);
      ClosedStays(cooloff, trace[j - 1], steps[j - 1], draw);
    }
  }

  /** What closes a request: its completion, its cancellation, or a later start for its account. */
  predicate Closes(s: State, step: Step, draw: Draw) {
    draw in s.requests &&
    match step
    case Completes(c, _) => c.token == draw && Succeeds(s, step)
    case CancelsBy(token, _) => token == draw
    case Starts(target, pair, _) => target == Some(s.requests[draw].account)
    case _ => false
  }

  /** Once closed, a request is never completed: not twice, not after its cancellation, not after
      it was superseded. */
  lemma NeverCompletedAfterClosing(cooloff: nat, trace: seq<State>, steps: seq<Step>, i: nat, j: nat, draw: Draw)
    requires Execution(cooloff, trace, steps) && i < j < |steps| && Closes(trace[i], steps[i], draw)
    requires steps[j].Completes? && steps[j].completion.token == draw
    ensures Answered(trace[j], steps[j]) == InvalidToken
  {
    AlwaysTidy(cooloff, trace, steps, i);
    assert StepAt(cooloff, trace, steps, i);
    ClosedForGood(cooloff, trace, steps, i + 1, j, draw);
  }

  /** Every request was opened by a start that set its clock. */
  lemma {:induction false} OpenedByStart(cooloff: nat, trace: seq<State>, steps: seq<Step>, i: nat, draw: Draw)
    requires Execution(cooloff, trace, steps) && i <= |steps| && draw in trace[i].requests
    ensures exists k | 0 <= k < i ::
              steps[k] == Starts(Some(trace[i].requests[draw].account), draw, trace[i].requests[draw].createdAt)
  {
    assert i > 0;
    assert StepAt(cooloff, trace, steps, i - 1);
    if draw in trace[i - 1].requests {
      OpenedByStart(cooloff, trace, steps, i - 1, draw);
      AlwaysTidy(cooloff, trace, steps, i - 1);
      SameOpening(cooloff, trace[i - 1], steps[i - 1], draw);
    }
  }

  lemma SameOpening(cooloff: nat, s: State, step: Step, draw: Draw)
    requires Tidy(cooloff, s) && Possible(s, step) && draw in s.requests
    ensures var s' := Next(cooloff, s, step);
            && draw in s'.requests
            && s'.requests[draw].account == s.requests[draw].account
            && s'.requests[draw].createdAt == s.requests[draw].createdAt
  {
  }

  /** A completion happens only within the window its start opened. */
  lemma CompletesInWindow(cooloff: nat, trace: seq<State>, steps: seq<Step>, i: nat)
    requires Execution(cooloff, trace, steps) && i < |steps| && Succeeds(trace[i], steps[i])
    ensures exists k | 0 <= k < i ::
              && steps[k].Starts? && steps[k].pair == steps[i].completion.token
              && steps[k].target == Some(trace[i].requests[steps[i].completion.token].account)
              && steps[k].now + cooloff <= steps[i].now < steps[k].now + cooloff + COMPLETION_WINDOW_SECS
  {
    AlwaysTidy(cooloff, trace, steps, i);
    var draw := steps[i].completion.token;
    OpenedByStart(cooloff, trace, steps, i, draw);
    var k :| 0 <= k < i &&
      steps[k] == Starts(Some(trace[i].requests[draw].account), draw, trace[i].requests[draw].createdAt);
    assert RequestHolds(cooloff, trace[i].requests[draw]);
  }

  // ---- What a completion does

  /** The bundle and verifier that a step gives to an account. */
  function Gives(s: State, step: Step, account: AccountId): Option<(Bundle, Verifier)> {
    match step
    case Completes(c, _) =>
      if Succeeds(s, step) && s.requests[c.token].account == account then Some((c.newBundle, c.newVerifier)) else None
    case ChangesPassword(access, bundle, verifier, now) =>
      var caller := Sessions.Authenticate(s.sessions.rows, access, now);
      if caller.Some? && caller.value.account == account then Some((bundle, verifier)) else None
    case Registers(a, bundle, verifier, _) => if a == account then Some((bundle, verifier)) else None
    case _ => None
  }

  /** What the last handler to give the account a bundle and a verifier gave it. */
  function LastGift(trace: seq<State>, steps: seq<Step>, i: nat, account: AccountId): Option<(Bundle, Verifier)>
    requires |trace| == |steps| + 1 && i <= |steps|
  {
    if i == 0 then None
    else
      match Gives(trace[i - 1], steps[i - 1], account)
      case Some(gift) => Some(gift)
      case None => LastGift(trace, steps, i - 1, account)
  }

  lemma GiftTaken(cooloff: nat, s: State, step: Step, account: AccountId)
    ensures var s', gift := Next(cooloff, s, step), Gives(s, step, account);
            if gift.Some? then
              account in s'.bundles && account in s'.verifiers
              && (s'.bundles[account], s'.verifiers[account]) == gift.value
            else
              && (account in s'.bundles <==> account in s.bundles)
              && (account in s'.verifiers <==> account in s.verifiers)
              && (account in s.bundles ==> s'.bundles[account] == s.bundles[account])
              && (account in s.verifiers ==> s'.verifiers[account] == s.verifiers[account])
  {
  }

  /** An account's bundle and verifier are those that one handler gave it together, the last to give
      it any; before any did, it has no verifier, and the bundle it came with. */
  lemma {:induction false} HoldsLastGift(cooloff: nat, trace: seq<State>, steps: seq<Step>, i: nat, account: AccountId)
    requires Execution(cooloff, trace, steps) && i <= |steps|
    ensures match LastGift(trace, steps, i, account)
            case Some(gift) =>
              && account in trace[i].bundles && account in trace[i].verifiers
              && (trace[i].bundles[account], trace[i].verifiers[account]) == gift
            case None =>
              && account !in trace[i].verifiers
              && (account in trace[i].bundles <==> account in trace[0].bundles)
              && (account in trace[0].bundles ==> trace[i].bundles[account] == trace[0].bundles[account])
  {
    if i > 0 {
      HoldsLastGift(cooloff, trace, steps, i - 1, account);
      assert StepAt(cooloff, trace, steps, i - 1);
      GiftTaken(cooloff, trace[i - 1], steps[i - 1], account);
    }
  }

  /** The account and time of the start that drew a request, while no step since has closed it. */
  function OpenSince(trace: seq<State>, steps: seq<Step>, i: nat, draw: Draw): Option<(AccountId, int)>
    requires |trace| == |steps| + 1 && i <= |steps|
  {
    if i == 0 then None
    else
      var step := steps[i - 1];
      if step.Starts? && step.target.Some? && step.pair == draw then Some((step.target.value, step.now))
      else if Closes(trace[i - 1], step, draw) then None
      else OpenSince(trace, steps, i - 1, draw)
  }

  function PendingAs(s: State, draw: Draw): Option<(AccountId, int)> {
    if draw in s.requests && Pending(s.requests[draw])
    then Some((s.requests[draw].account, s.requests[draw].createdAt)) else None
  }

  lemma PendingStep(cooloff: nat, s: State, step: Step, draw: Draw)
    requires Tidy(cooloff, s) && Possible(s, step)
    ensures PendingAs(Next(cooloff, s, step), draw) ==
            if step.Starts? && step.target.Some? && step.pair == draw then Some((step.target.value, step.now))
            else if Closes(s, step, draw) then None
            else PendingAs(s, draw)
  {
  }

  /** A request is pending exactly while nothing has closed it since its start. */
  lemma {:induction false} PendingExactly(cooloff: nat, trace: seq<State>, steps: seq<Step>, i: nat, draw: Draw)
    requires Execution(cooloff, trace, steps) && i <= |steps|
    ensures PendingAs(trace[i], draw) == OpenSince(trace, steps, i, draw)
  {
    if i > 0 {
      PendingExactly(cooloff, trace, steps, i - 1, draw);
      AlwaysTidy(cooloff, trace, steps, i - 1);
      assert StepAt(cooloff, trace, steps, i - 1);
      PendingStep(cooloff, trace[i - 1], steps[i - 1], draw);
    }
  }

  /** Who can complete, and how. A completion preserves the data exactly if its request was started
      within the window and not closed since, and the verifier presented is the last that any
      handler gave the account; it loses the data exactly if the request stands as before, no
      verifier is presented and `wipe` is set. */
  lemma CompletesExactly(cooloff: nat, trace: seq<State>, steps: seq<Step>, i: nat, preserved: bool)
    requires Execution(cooloff, trace, steps) && i < |steps| && steps[i].Completes?
    ensures var c, now := steps[i].completion, steps[i].now;
            var open := OpenSince(trace, steps, i, c.token);
            Answered(trace[i], steps[i]) == Completed(preserved) <==>
            && open.Some? && open.value.1 + cooloff <= now < open.value.1 + cooloff + COMPLETION_WINDOW_SECS
            && c.wellFormed
            && if preserved then
                 var gift := LastGift(trace, steps, i, open.value.0);
                 c.presented.Verifier? && gift.Some? && gift.value.1 == c.presented.value
               else c.presented.NoVerifier? && c.wipe
  {
    var token := steps[i].completion.token;
    PendingExactly(cooloff, trace, steps, i, token);
    AlwaysTidy(cooloff, trace, steps, i);
    if token in trace[i].requests {
      assert RequestHolds(cooloff, trace[i].requests[token]);
      HoldsLastGift(cooloff, trace, steps, i, trace[i].requests[token].account);
    }
  }

  /** The other answers, as exactly: an unusable token, a window not reached yet and for how long, a
      verifier that is not the account's, and a request that is not complete. */
  lemma RefusesExactly(cooloff: nat, trace: seq<State>, steps: seq<Step>, i: nat)
    requires Execution(cooloff, trace, steps) && i < |steps| && steps[i].Completes?
    ensures var c, now, answer := steps[i].completion, steps[i].now, Answered(trace[i], steps[i]);
            match OpenSince(trace, steps, i, c.token)
            case None => answer == InvalidToken
            case Some(started) =>
              var (account, at) := (started.0, started.1);
              var usable := at + cooloff <= now < at + cooloff + 7 * 24 * 60 * 60;
              && (answer == InvalidToken <==> now >= at + cooloff + 7 * 24 * 60 * 60)
              && (answer.CoolingOff? <==> now < at + cooloff)
              && (answer.CoolingOff? ==> answer.retryAfter > 0 && now + answer.retryAfter == at + cooloff)
              && (answer == InvalidCredentials <==>
                  usable && c.wellFormed && c.presented.Verifier?
                  && (LastGift(trace, steps, i, account).None?
                      || LastGift(trace, steps, i, account).value.1 != c.presented.value))
              && (answer == BadRequest <==>
                  usable && (!c.wellFormed || c.presented.Undecodable? || (c.presented.NoVerifier? && !c.wipe)))
  {
    var token := steps[i].completion.token;
    PendingExactly(cooloff, trace, steps, i, token);
    AlwaysTidy(cooloff, trace, steps, i);
    if token in trace[i].requests {
      assert RequestHolds(cooloff, trace[i].requests[token]);
      HoldsLastGift(cooloff, trace, steps, i, trace[i].requests[token].account);
    }
  }

  /** The step completes a recovery of this account without a verifier and with `wipe` set. */
  predicate Wipes(s: State, step: Step, account: AccountId) {
    && Succeeds(s, step) && step.completion.presented.NoVerifier? && step.completion.wipe
    && s.requests[step.completion.token].account == account
  }

  /** Of all steps only a completion without a verifier and with `wipe` set erases items, and it
      erases exactly its account's; storing adds one, and nothing else changes any. */
  lemma OnlyAWipeErases(cooloff: nat, s: State, step: Step, account: AccountId)
    ensures var (before, after) := (s.items, Next(cooloff, s, step).items);
            && (Wipes(s, step, account) ==> account in after && after[account] == {})
            && (step.Stores? && step.account == account ==>
                account in after
                && after[account] == (if account in before then before[account] else {}) + {step.item})
            && (!Wipes(s, step, account) && !(step.Stores? && step.account == account) ==>
                (account in after <==> account in before)
                && (account in before ==> after[account] == before[account]))
  {
  }

  lemma {:induction false} FamilyDeadForGood(cooloff: nat, trace: seq<State>, steps: seq<Step>, i: nat, j: nat,
                                             family: Sessions.Family)
    requires Execution(cooloff, trace, steps) && i <= j <= |steps| && Sessions.FamilyDead(trace[i].sessions, family)
    ensures Sessions.FamilyDead(trace[j].sessions, family)
    decreases j
  {
    if i < j {
      FamilyDeadForGood(cooloff, trace, steps, i, j - 1, family);
      AlwaysTidy(cooloff, trace, steps, j - 1);
      assert StepAt(cooloff, trace, steps, j - 1);
      var s, step := trace[j - 1], steps[j - 1];
      SessionsStep(cooloff, s, step);
      if SessionPart(s, step).Some? {
        Sessions.DeadFamilyStays(s.sessions, SessionPart(s, step).value, family);
      }
    }
  }

  /** No session that existed when a recovery completed is ever valid again. */
  lemma CompletionEndsSessions(cooloff: nat, trace: seq<State>, steps: seq<Step>, i: nat, j: nat, draw: Sessions.Draw,
                               now: int)
    requires Execution(cooloff, trace, steps) && i < j <= |steps| && Succeeds(trace[i], steps[i])
    requires draw in trace[j].sessions.rows
    requires var row := trace[j].sessions.rows[draw];
             && row.family in trace[i].sessions.logins
             && trace[i].sessions.logins[row.family].account
                == trace[i].requests[steps[i].completion.token].account
    ensures Sessions.Authenticate(trace[j].sessions.rows, draw, now).None?
    ensures Sessions.RefreshAnswer(trace[j].sessions.rows, draw, draw, now) == Sessions.Reused
  {
    var account := trace[i].requests[steps[i].completion.token].account;
    var family := trace[j].sessions.rows[draw].family;
    AlwaysTidy(cooloff, trace, steps, i);
    assert StepAt(cooloff, trace, steps, i);
    Sessions.EndAllEnds(trace[i].sessions, account, steps[i].now, family);
    FamilyDeadForGood(cooloff, trace, steps, i + 1, j, family);
  }

  /** A session handler does in the whole server what it does by itself, and every step sets the
      clock. */
  lemma SessionHandlersRun(cooloff: nat, s: State, step: Step)
    ensures step.OnSessions? ==> Next(cooloff, s, step).sessions == Sessions.Next(s.sessions, step.step)
    ensures Next(cooloff, s, step).sessions.clock == Now(step)
  {
  }

  /** After a password change no other session of the account is ever valid again, and at once the
      caller's own still is. */
  lemma PasswordChangeEndsOthers(cooloff: nat, trace: seq<State>, steps: seq<Step>, i: nat, j: nat,
                                 draw: Sessions.Draw, now: int)
    requires Execution(cooloff, trace, steps) && i < j <= |steps| && steps[i].ChangesPassword?
    requires Sessions.Authenticate(trace[i].sessions.rows, steps[i].access, steps[i].now).Some?
    requires draw in trace[j].sessions.rows
    requires var (row, own) := (trace[j].sessions.rows[draw], trace[i].sessions.rows[steps[i].access]);
             && row.family != own.family && row.family in trace[i].sessions.logins
             && trace[i].sessions.logins[row.family].account == own.account
    ensures Sessions.Authenticate(trace[j].sessions.rows, draw, now).None?
    ensures Sessions.RefreshAnswer(trace[j].sessions.rows, draw, draw, now) == Sessions.Reused
    ensures Sessions.Authenticate(trace[i + 1].sessions.rows, steps[i].access, steps[i].now)
         == Sessions.Authenticate(trace[i].sessions.rows, steps[i].access, steps[i].now)
  {
    var family := trace[j].sessions.rows[draw].family;
    AlwaysTidy(cooloff, trace, steps, i);
    assert StepAt(cooloff, trace, steps, i);
    Sessions.OthersEnd(trace[i].sessions, steps[i].access, steps[i].now, family);
    assert Sessions.RowHolds(trace[i].sessions, steps[i].access);
    Sessions.OthersEnd(trace[i].sessions, steps[i].access, steps[i].now,
                       trace[i].sessions.rows[steps[i].access].family);
    FamilyDeadForGood(cooloff, trace, steps, i + 1, j, family);
  }
}
