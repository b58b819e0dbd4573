/** Bearer-token sessions (server/vault-server/src/routes/auth.rs:198-420, routes/sessions.rs:71-110,
    state.rs:137-158 and the password change of routes/recovery.rs:678-731).

    A row's access and refresh tokens are drawn together, so a draw names the row: a presented
    token is the draw it came from. Rows of one login share a family. Each handler is one step. */
module Sessions {
  import opened Wrappers

  type AccountId = nat
  type Family = nat
  type Draw = nat

  const ACCESS_TOKEN_TTL_SECS := 15 * 60
  const REFRESH_TOKEN_TTL_SECS := 30 * 24 * 3600
  const ABSOLUTE_SESSION_TTL_SECS := 90 * 24 * 3600

  datatype Session = Session(account: AccountId, family: Family, accessExpires: int, refreshExpires: int,
                             createdAt: int, cap: Option<int>, revokedAt: Option<int>)

  type Table = map<Draw, Session>

  predicate Live(session: Session) {
    session.revokedAt.None?
  }

  /** Rows from before the cap existed have none. */
  predicate WithinCap(session: Session, now: int) {
    session.cap.None? || session.cap.value > now
  }

  // ---- The statements

  function Authenticate(rows: Table, access: Draw, now: int): Option<Session> {
    if access in rows && Live(rows[access]) && rows[access].accessExpires > now && WithinCap(rows[access], now)
    then Some(rows[access]) else None
  }

  datatype Filter =
    | OneFamily(family: Family)
    | FamilyOf(account: AccountId, family: Family)
    | OtherFamilies(account: AccountId, family: Family)
    | WholeAccount(account: AccountId)

  predicate Picks(filter: Filter, session: Session) {
    match filter
    case OneFamily(family) => session.family == family
    case FamilyOf(account, family) => session.account == account && session.family == family
    case OtherFamilies(account, family) => session.account == account && session.family != family
    case WholeAccount(account) => session.account == account
  }

  function RevokeWhere(rows: Table, filter: Filter, now: int): Table {
    map draw | draw in rows ::
      if Live(rows[draw]) && Picks(filter, rows[draw]) then rows[draw].(revokedAt := Some(now)) else rows[draw]
  }

  function Matching(rows: Table, filter: Filter): set<Draw> {
    set draw | draw in rows && Live(rows[draw]) && Picks(filter, rows[draw])
  }

  function PurgeExpired(rows: Table, account: AccountId, now: int): Table {
    map draw | draw in rows && !(rows[draw].account == account && rows[draw].refreshExpires < now) :: rows[draw]
  }

  function NewRow(account: AccountId, family: Family, now: int, createdAt: int, cap: int): Session {
    Session(account, family, now + ACCESS_TOKEN_TTL_SECS, now + REFRESH_TOKEN_TTL_SECS, createdAt, Some(cap), None)
  }

  // ---- The handlers

  /** The ceiling a rotation carries on; a row without one gets one now. */
  function CapFrom(session: Session, now: int): int {
    match session.cap
    case Some(cap) => cap
    case None => now + ABSOLUTE_SESSION_TTL_SECS
  }

  datatype Refreshed = Rotated(draw: Draw) | Unknown | Reused | Expired

  function RefreshAnswer(rows: Table, presented: Draw, drawn: Draw, now: int): Refreshed {
    if presented !in rows then Unknown
    else if !Live(rows[presented]) then Reused
    else if rows[presented].refreshExpires <= now || !WithinCap(rows[presented], now) then Expired
    else Rotated(drawn)
  }

  function LoginRows(rows: Table, account: AccountId, family: Family, drawn: Draw, now: int): Table {
    PurgeExpired(rows, account, now)[drawn := NewRow(account, family, now, now, now + ABSOLUTE_SESSION_TTL_SECS)]
  }

  function RefreshRows(rows: Table, presented: Draw, drawn: Draw, now: int): Table {
    match RefreshAnswer(rows, presented, drawn, now)
    case Unknown => rows
    case Expired => rows
    case Reused => RevokeWhere(rows, OneFamily(rows[presented].family), now)
    case Rotated(_) =>
      var s := rows[presented];
      rows[presented := s.(revokedAt := Some(now))][drawn := NewRow(s.account, s.family, now, s.createdAt, CapFrom(s, now))]
  }

  function LogoutRows(rows: Table, access: Draw, now: int): Table {
    match Authenticate(rows, access, now)
    case None => rows
    case Some(caller) => rows[access := caller.(revokedAt := Some(now))]
  }

  function RevokeRows(rows: Table, access: Draw, family: Family, now: int): Table {
    match Authenticate(rows, access, now)
    case None => rows
    case Some(caller) => RevokeWhere(rows, FamilyOf(caller.account, family), now)
  }

  /** Revoking the other devices, and what a password change does to the sessions. */
  function RevokeOthersRows(rows: Table, access: Draw, now: int): Table {
    match Authenticate(rows, access, now)
    case None => rows
    case Some(caller) => RevokeWhere(rows, OtherFamilies(caller.account, caller.family), now)
  }

  function EndAllRows(rows: Table, account: AccountId, now: int): Table {
    RevokeWhere(rows, WholeAccount(account), now)
  }

  /** The sessions table with the handlers' statements run on it in order. */
  class SessionTable {
    var rows: Table

    constructor ()
      ensures rows == map[]
    {
      rows := map[];
    }

    method Update(filter: Filter, now: int) returns (affected: nat)
      modifies this
      ensures rows == RevokeWhere(old(rows), filter, now)
      ensures affected == |Matching(old(rows), filter)|
    {
      var picked := Matching(rows, filter);
      rows := map draw | draw in rows ::
        if draw in picked then rows[draw].(revokedAt := Some(now)) else rows[draw];
      affected := |picked|;
    }

    method Login(account: AccountId, family: Family, drawn: Draw, now: int)
      modifies this
      ensures rows == LoginRows(old(rows), account, family, drawn, now)
    {
      var dead := set draw | draw in rows && rows[draw].account == account && rows[draw].refreshExpires < now;
      rows := rows - dead;
      rows := rows[drawn := NewRow(account, family, now, now, now + ABSOLUTE_SESSION_TTL_SECS)];
    }

    method Refresh(presented: Draw, drawn: Draw, now: int) returns (answer: Refreshed)
      modifies this
      ensures answer == RefreshAnswer(old(rows), presented, drawn, now)
      ensures rows == RefreshRows(old(rows), presented, drawn, now)
    {
      if presented !in rows {
        return Unknown;
      }
      var session := rows[presented];
      if session.revokedAt.Some? {
        var _ := Update(OneFamily(session.family), now);
        return Reused;
      }
      if session.refreshExpires <= now || (session.cap.Some? && session.cap.value <= now) {
        return Expired;
      }
      var cap := if session.cap.Some? then session.cap.value else now + ABSOLUTE_SESSION_TTL_SECS;
      rows := rows[presented := session.(revokedAt := Some(now))];
      rows := rows[drawn := NewRow(session.account, session.family, now, session.createdAt, cap)];
      return Rotated(drawn);
    }

    method Logout(access: Draw, now: int) returns (ok: bool)
      modifies this
      ensures ok == Authenticate(old(rows), access, now).Some?
      ensures rows == LogoutRows(old(rows), access, now)
    {
      var caller := Authenticate(rows, access, now);
      if caller.Some? {
        rows := rows[access := caller.value.(revokedAt := Some(now))];
      }
      return caller.Some?;
    }

    method Revoke(access: Draw, family: Family, now: int) returns (found: bool)
      modifies this
      ensures rows == RevokeRows(old(rows), access, family, now)
      ensures var caller := Authenticate(old(rows), access, now);
              found <==> caller.Some? && Matching(old(rows), FamilyOf(caller.value.account, family)) != {}
    {
      var caller := Authenticate(rows, access, now);
      if caller.None? {
        return false;
      }
      var affected := Update(FamilyOf(caller.value.account, family), now);
      return affected > 0;
    }

    method RevokeOthers(access: Draw, now: int) returns (revoked: Option<nat>)
      modifies this
      ensures rows == RevokeOthersRows(old(rows), access, now)
      ensures var caller := Authenticate(old(rows), access, now);
              revoked == if caller.None? then None
                         else Some(|Matching(old(rows), OtherFamilies(caller.value.account, caller.value.family))|)
    {
      var caller := Authenticate(rows, access, now);
      if caller.None? {
        return None;
      }
      var affected := Update(OtherFamilies(caller.value.account, caller.value.family), now);
      return Some(affected);
    }
  }

  // ---- Runs

  datatype Login = Login(account: AccountId, at: int)

  /** The table with its past: when every draw was made, each family's login and, once it has
      one, its cap; which families are older than the cap, and when it came; and the clock. */
  datatype State = State(rows: Table, drawn: map<Draw, int>, logins: map<Family, Login>, caps: map<Family, int>,
                         legacy: set<Family>, migratedAt: int, clock: int)

  datatype Step =
    | SignIn(account: AccountId, family: Family, pair: Draw, now: int)
    | Refresh(presented: Draw, pair: Draw, now: int)
    | Logout(access: Draw, now: int)
    | Revoke(access: Draw, family: Family, now: int)
    | RevokeOthers(access: Draw, now: int)
    | EndAll(account: AccountId, now: int)

  const START := State(map[], map[], map[], map[], {}, 0, 0)

  predicate Rotates(s: State, step: Step) {
    step.Refresh? && RefreshAnswer(s.rows, step.presented, step.pair, step.now).Rotated?
  }

  function Next(s: State, step: Step): State {
    var ticked := s.(clock := step.now);
    match step
    case SignIn(account, family, pair, now) =>
      ticked.(rows := LoginRows(s.rows, account, family, pair, now), drawn := s.drawn[pair := now],
              logins := s.logins[family := Login(account, now)],
              caps := s.caps[family := now + ABSOLUTE_SESSION_TTL_SECS])
    case Refresh(presented, pair, now) =>
      ticked.(rows := RefreshRows(s.rows, presented, pair, now), drawn := s.drawn[pair := now],
              caps := if Rotates(s, step)
                      then s.caps[s.rows[presented].family := CapFrom(s.rows[presented], now)] else s.caps)
    case Logout(access, now) => ticked.(rows := LogoutRows(s.rows, access, now))
    case Revoke(access, family, now) => ticked.(rows := RevokeRows(s.rows, access, family, now))
    case RevokeOthers(access, now) => ticked.(rows := RevokeOthersRows(s.rows, access, now))
    case EndAll(account, now) => ticked.(rows := EndAllRows(s.rows, account, now))
  }

  /** The clock does not go back, and random draws do not repeat. */
  predicate Possible(s: State, step: Step) {
    && s.clock <= step.now
    && match step
       case SignIn(_, family, pair, _) => family !in s.logins && pair !in s.drawn
       case Refresh(_, pair, _) => pair !in s.drawn
       case _ => true
  }

  predicate StepAt(trace: seq<State>, steps: seq<Step>, i: nat)
    requires i < |steps| && |trace| == |steps| + 1
  {
    Possible(trace[i], steps[i]) && trace[i + 1] == Next(trace[i], steps[i])
  }

  ghost predicate Execution(trace: seq<State>, steps: seq<Step>) {
    && |trace| == |steps| + 1 && Migrated(trace[0])
    && forall i | 0 <= i < |steps| :: StepAt(trace, steps, i)
  }

  // ---- What every step keeps

  predicate RowHolds(s: State, draw: Draw)
    requires draw in s.rows
  {
    var row := s.rows[draw];
    && draw in s.drawn
    && row.accessExpires == s.drawn[draw] + ACCESS_TOKEN_TTL_SECS
    && row.refreshExpires == s.drawn[draw] + REFRESH_TOKEN_TTL_SECS
    && row.family in s.logins
    && Login(row.account, row.createdAt) == s.logins[row.family]
    && match row.cap
       case Some(cap) => row.family in s.caps && s.caps[row.family] == cap
       case None =>
         row.family in s.legacy && s.drawn[draw] <= s.migratedAt && (Live(row) ==> row.family !in s.caps)
  }

  /** A family is capped ninety days after its login, or, if it is older than the cap, ninety days
      after a refresh in the thirty days from when the cap came. */
  predicate CapHolds(s: State, family: Family)
    requires family in s.caps
  {
    if family in s.legacy
    then s.caps[family] < s.migratedAt + REFRESH_TOKEN_TTL_SECS + ABSOLUTE_SESSION_TTL_SECS
    else family in s.logins && s.caps[family] == s.logins[family].at + ABSOLUTE_SESSION_TTL_SECS
  }

  /** Rows carry their family's login and cap, and a family has at most one live row. */
  ghost predicate Sound(s: State) {
    && (forall draw | draw in s.rows :: RowHolds(s, draw))
    && (forall family | family in s.caps :: CapHolds(s, family))
    && s.legacy <= s.logins.Keys
    && (forall p, q | p in s.rows && q in s.rows && Live(s.rows[p]) && Live(s.rows[q])
          && s.rows[p].family == s.rows[q].family :: p == q)
  }

  /** A table as the migration that brought the cap found it: any rows, none of them capped. */
  ghost predicate Migrated(s: State) {
    && Sound(s) && s.caps == map[] && s.migratedAt == s.clock && s.logins.Keys == s.legacy
    && (forall draw | draw in s.rows :: s.rows[draw].cap.None?)
  }

  lemma EmptyIsMigrated()
    ensures Migrated(START)
  {
  }

  /** A token that was handed out and no longer works. */
  predicate Spent(s: State, draw: Draw) {
    draw in s.drawn && (draw in s.rows ==> !Live(s.rows[draw]))
  }

  ghost predicate FamilyDead(s: State, family: Family) {
    family in s.logins && forall draw | draw in s.rows && s.rows[draw].family == family :: !Live(s.rows[draw])
  }

  lemma RowsStay(s: State, step: Step, draw: Draw)
    requires Possible(s, step) && Sound(s) && draw in Next(s, step).rows && !step.Refresh?
    ensures RowHolds(Next(s, step), draw)
  {
    if draw in s.rows {
      assert RowHolds(s, draw);
    }
  }

  lemma RowsStayOnRefresh(s: State, step: Step, draw: Draw)
    requires Possible(s, step) && Sound(s) && draw in Next(s, step).rows && step.Refresh?
    ensures RowHolds(Next(s, step), draw)
  {
    if draw in s.rows {
      assert RowHolds(s, draw);
    }
    if step.presented in s.rows {
      assert RowHolds(s, step.presented);
    }
  }

  lemma CapsStay(s: State, step: Step, family: Family)
    requires Possible(s, step) && Sound(s) && family in Next(s, step).caps
    ensures CapHolds(Next(s, step), family)
  {
    if family in s.caps {
      assert CapHolds(s, family);
    }
    if step.Refresh? && step.presented in s.rows {
      assert RowHolds(s, step.presented);
    }
  }

  lemma OneLiveStays(s: State, step: Step)
    requires Sound(s) && Possible(s, step)
    ensures var rows := Next(s, step).rows;
            forall p, q | p in rows && q in rows && Live(rows[p]) && Live(rows[q])
              && rows[p].family == rows[q].family :: p == q
  {
    assert forall draw | draw in s.rows :: RowHolds(s, draw);
  }

  lemma StepKeepsSound(s: State, step: Step)
    requires Sound(s) && Possible(s, step)
    ensures Sound(Next(s, step))
  {
    OneLiveStays(s, step);
    forall draw | draw in Next(s, step).rows ensures RowHolds(Next(s, step), draw) {
      if step.Refresh? {
        RowsStayOnRefresh(s, step, draw);
      } else {
        RowsStay(s, step, draw);
      }
    }
    forall family | family in Next(s, step).caps ensures CapHolds(Next(s, step), family) {
      CapsStay(s, step, family);
    }
  }

  lemma TimePasses(s: State, now: int)
    requires Sound(s)
    ensures Sound(s.(clock := now))
  {
    var s' := s.(clock := now);
    forall draw | draw in s'.rows ensures RowHolds(s', draw) {
      assert RowHolds(s, draw);
    }
    forall family | family in s'.caps ensures CapHolds(s', family) {
      assert CapHolds(s, family);
    }
  }

  lemma SpentStays(s: State, step: Step, draw: Draw)
    requires Sound(s) && Possible(s, step) && Spent(s, draw)
    ensures Spent(Next(s, step), draw)
  {
  }

  lemma DeadFamilyStays(s: State, step: Step, family: Family)
    requires Sound(s) && Possible(s, step) && FamilyDead(s, family)
    ensures FamilyDead(Next(s, step), family)
  {
  }

  lemma {:induction false} AlwaysSound(trace: seq<State>, steps: seq<Step>, i: nat)
    requires Execution(trace, steps) && i <= |steps|
    ensures Sound(trace[i])
  {
    if i > 0 {
      AlwaysSound(trace, steps, i - 1);
      assert StepAt(trace, steps, i - 1);
      StepKeepsSound(trace[i - 1], steps[i - 1]);
    }
  }

  lemma {:induction false} SpentForGood(trace: seq<State>, steps: seq<Step>, i: nat, j: nat, draw: Draw)
    requires Execution(trace, steps) && i <= j <= |steps| && Spent(trace[i], draw)
    ensures Spent(trace[j], draw)
    decreases j
  {
    if i < j {
      SpentForGood(trace, steps, i, j - 1, draw);
      AlwaysSound(trace, steps, j - 1);
      assert StepAt(trace, steps, j - 1);
      SpentStays(trace[j - 1], steps[j - 1], draw);
    }
  }

  lemma {:induction false} DeadForGood(trace: seq<State>, steps: seq<Step>, i: nat, j: nat, family: Family)
    requires Execution(trace, steps) && i <= j <= |steps| && FamilyDead(trace[i], family)
    ensures FamilyDead(trace[j], family)
    decreases j
  {
    if i < j {
      DeadForGood(trace, steps, i, j - 1, family);
      AlwaysSound(trace, steps, j - 1);
      assert StepAt(trace, steps, j - 1);
      DeadFamilyStays(trace[j - 1], steps[j - 1], family);
    }
  }

  // ---- Refresh tokens

  /** A refresh token is good once. */
  lemma RefreshSucceedsOnce(trace: seq<State>, steps: seq<Step>, i: nat, j: nat)
    requires Execution(trace, steps) && i < j < |steps|
    requires Rotates(trace[i], steps[i]) && Rotates(trace[j], steps[j])
    ensures steps[i].presented != steps[j].presented
  {
    AlwaysSound(trace, steps, i);
    assert StepAt(trace, steps, i);
    assert RowHolds(trace[i], steps[i].presented);
    assert Spent(trace[i + 1], steps[i].presented);
    SpentForGood(trace, steps, i + 1, j, steps[i].presented);
  }

  /** Replaying a token that no longer works: if its row is still stored, its whole family is dead
      afterwards and every other row, of the same account too, is as it was; if not, nothing
      happens. */
  lemma ReplayKillsExactly(s: State, step: Step)
    requires Sound(s) && Possible(s, step) && step.Refresh? && Spent(s, step.presented)
    ensures step.presented in s.rows ==>
              var family := s.rows[step.presented].family;
              && FamilyDead(Next(s, step), family)
              && Next(s, step).rows.Keys == s.rows.Keys
              && forall draw | draw in s.rows && s.rows[draw].family != family ::
                   Next(s, step).rows[draw] == s.rows[draw]
    ensures step.presented !in s.rows ==> Next(s, step).rows == s.rows
  {
    if step.presented in s.rows {
      assert RowHolds(s, step.presented);
    }
  }

  /** An account with two logins: the replay of a rotated token of the first kills the first and
      leaves the second working. */
  lemma ReplaySparesOtherLogins()
    ensures var twice := Next(Next(START, SignIn(1, 1, 1, 0)), SignIn(1, 2, 2, 0));
            var replayed := Next(Next(twice, Refresh(1, 3, 60)), Refresh(1, 4, 120));
            && Authenticate(replayed.rows, 3, 180).None? && RefreshAnswer(replayed.rows, 3, 5, 180) == Reused
            && Authenticate(replayed.rows, 2, 180).Some? && RefreshAnswer(replayed.rows, 2, 5, 180) == Rotated(5)
  {
  }

  /** A dead family authenticates nobody, refreshes for nobody and gets no new row, ever. */
  lemma DeadFamiliesStayOut(trace: seq<State>, steps: seq<Step>, i: nat, j: nat, family: Family, draw: Draw, now: int)
    requires Execution(trace, steps) && i <= j <= |steps| && FamilyDead(trace[i], family)
    requires draw in trace[j].rows && trace[j].rows[draw].family == family
    ensures Authenticate(trace[j].rows, draw, now).None?
    ensures RefreshAnswer(trace[j].rows, draw, draw, now) == Reused
  {
    DeadForGood(trace, steps, i, j, family);
  }

  /** Replaying a stored rotated token kills every descendant of its login for good. */
  lemma ReplayKillsForGood(trace: seq<State>, steps: seq<Step>, i: nat, j: nat, draw: Draw, now: int)
    requires Execution(trace, steps) && i < j <= |steps|
    requires steps[i].Refresh? && steps[i].presented in trace[i].rows && Spent(trace[i], steps[i].presented)
    requires draw in trace[j].rows && trace[j].rows[draw].family == trace[i].rows[steps[i].presented].family
    ensures Authenticate(trace[j].rows, draw, now).None?
    ensures RefreshAnswer(trace[j].rows, draw, draw, now) == Reused
  {
    AlwaysSound(trace, steps, i);
    assert StepAt(trace, steps, i);
    ReplayKillsExactly(trace[i], steps[i]);
    DeadFamiliesStayOut(trace, steps, i + 1, j, trace[j].rows[draw].family, draw, now);
  }

  /** The purge at login forgets rotated tokens past their window, and with them the reuse
      evidence: replaying one then leaves the family alive. */
  lemma PurgeForgetsReuse()
    ensures var day := 24 * 3600;
            var rotated := Next(Next(START, SignIn(1, 1, 1, 0)), Refresh(1, 2, day));
            var later := Next(rotated, SignIn(1, 2, 3, 30 * day + 1));
            && Spent(rotated, 1) && RefreshAnswer(rotated.rows, 1, 4, 30 * day + 2) == Reused
            && RefreshAnswer(later.rows, 1, 4, 30 * day + 2) == Unknown
            && RefreshAnswer(Next(later, Refresh(1, 4, 30 * day + 2)).rows, 2, 5, 30 * day + 3) == Rotated(5)
  {
  }

  // ---- Lifetimes

  /** No token works at or after its login plus 90 days, however often it was refreshed; for logins
      older than the cap, none works at or after 30 plus 90 days from when the cap came. */
  lemma NinetyDays(trace: seq<State>, steps: seq<Step>, i: nat, draw: Draw, now: int)
    requires Execution(trace, steps) && i <= |steps| && draw in trace[i].rows
    requires Authenticate(trace[i].rows, draw, now).Some? || RefreshAnswer(trace[i].rows, draw, draw, now).Rotated?
    ensures trace[i].rows[draw].family in trace[i].logins
    ensures var s, family := trace[i], trace[i].rows[draw].family;
            now < if family in s.legacy then s.migratedAt + REFRESH_TOKEN_TTL_SECS + ABSOLUTE_SESSION_TTL_SECS
                  else s.logins[family].at + ABSOLUTE_SESSION_TTL_SECS
  {
    AlwaysSound(trace, steps, i);
    assert RowHolds(trace[i], draw);
    if trace[i].rows[draw].cap.Some? {
      assert CapHolds(trace[i], trace[i].rows[draw].family);
    }
  }

  lemma ClockIsTheLast(s: State, step: Step)
    ensures Next(s, step).clock == step.now
  {
  }

  /** The families older than the cap are those of the first table; logins never join them. */
  lemma {:induction false} LegacyIsFixed(trace: seq<State>, steps: seq<Step>, i: nat)
    requires Execution(trace, steps) && i <= |steps|
    ensures trace[i].legacy == trace[0].logins.Keys && trace[i].migratedAt == trace[0].clock
  {
    if i > 0 {
      LegacyIsFixed(trace, steps, i - 1);
      assert StepAt(trace, steps, i - 1);
    }
  }

  /** An access token works for fifteen minutes from its draw, a refresh token for thirty days. */
  lemma TokensLapse(trace: seq<State>, steps: seq<Step>, i: nat, draw: Draw, now: int)
    requires Execution(trace, steps) && i <= |steps| && draw in trace[i].rows
    ensures draw in trace[i].drawn
    ensures Authenticate(trace[i].rows, draw, now).Some? ==> now < trace[i].drawn[draw] + ACCESS_TOKEN_TTL_SECS
    ensures RefreshAnswer(trace[i].rows, draw, draw, now).Rotated? ==> now < trace[i].drawn[draw] + REFRESH_TOKEN_TTL_SECS
  {
    AlwaysSound(trace, steps, i);
    assert RowHolds(trace[i], draw);
  }

  /** A successful rotation hands the session over: the new pair works until it lapses or the
      family's cap comes, for the same account and family, and the old pair no longer does. */
  lemma RotationHandsOver(s: State, step: Step, now: int)
    requires Sound(s) && Possible(s, step) && Rotates(s, step)
    ensures var s', was := Next(s, step), s.rows[step.presented];
            var end := match was.cap case Some(cap) => cap case None => step.now + 90 * 24 * 60 * 60;
            && step.pair in s'.rows
            && s'.rows[step.pair].account == was.account && s'.rows[step.pair].family == was.family
            && (Authenticate(s'.rows, step.pair, now).Some? <==>
                now < step.now + 15 * 60 && now < end)
            && (RefreshAnswer(s'.rows, step.pair, step.pair, now).Rotated? <==>
                now < step.now + 30 * 24 * 60 * 60 && now < end)
            && Authenticate(s'.rows, step.presented, now).None?
            && RefreshAnswer(s'.rows, step.presented, step.presented, now) == Reused
  {
    assert RowHolds(s, step.presented);
  }

  /** A refresh that is unknown or comes too late changes nothing. */
  lemma RefusedRefreshChangesNothing(s: State, step: Step)
    requires step.Refresh?
    requires step.presented !in s.rows
             || (Live(s.rows[step.presented]) && !Rotates(s, step))
    ensures Next(s, step).rows == s.rows
  {
  }

  /** A login works at once for as long as tokens do, and of the stored rows it removes exactly the
      account's whose thirty days are over. */
  lemma LoginOpens(s: State, step: Step, now: int, draw: Draw)
    requires Sound(s) && Possible(s, step) && step.SignIn?
    ensures var rows := Next(s, step).rows;
            && step.pair in rows && rows[step.pair].account == step.account && rows[step.pair].family == step.family
            && (Authenticate(rows, step.pair, now).Some? <==> now < step.now + 15 * 60)
            && (RefreshAnswer(rows, step.pair, step.pair, now).Rotated? <==> now < step.now + 30 * 24 * 60 * 60)
    ensures draw in s.rows ==>
              && draw in s.drawn
              && (draw in Next(s, step).rows <==>
                  !(s.rows[draw].account == step.account && s.drawn[draw] + 30 * 24 * 60 * 60 < step.now))
              && (draw in Next(s, step).rows ==> Next(s, step).rows[draw] == s.rows[draw])
  {
    if draw in s.rows {
      assert RowHolds(s, draw);
    }
  }

  // ---- Revocation reaches what it should and no more

  /** Completing a recovery ends every session of the account, for good, and no other's. */
  lemma EndAllEnds(s: State, account: AccountId, now: int, family: Family)
    requires Sound(s) && family in s.logins
    ensures var s' := Next(s, EndAll(account, now));
            && (s.logins[family].account == account ==> FamilyDead(s', family))
            && (s.logins[family].account != account ==>
                forall draw | draw in s.rows && s.rows[draw].family == family ::
                  draw in s'.rows && s'.rows[draw] == s.rows[draw])
  {
    assert forall draw | draw in s.rows :: RowHolds(s, draw);
  }

  /** A password change or "revoke others" ends the account's other families and leaves the
      caller's alone. */
  lemma OthersEnd(s: State, access: Draw, now: int, family: Family)
    requires Sound(s) && family in s.logins && Authenticate(s.rows, access, now).Some?
    ensures var s', own := Next(s, RevokeOthers(access, now)), s.rows[access];
            if s.logins[family].account == own.account && family != own.family then FamilyDead(s', family)
            else forall draw | draw in s.rows && s.rows[draw].family == family ::
                   draw in s'.rows && s'.rows[draw] == s.rows[draw]
  {
    assert forall draw | draw in s.rows :: RowHolds(s, draw);
  }

  /** Logging out kills the caller's family, as its one live row goes, and touches no other row. */
  lemma LogoutEnds(s: State, access: Draw, now: int)
    requires Sound(s) && Authenticate(s.rows, access, now).Some?
    ensures var s', family := Next(s, Logout(access, now)), s.rows[access].family;
            && FamilyDead(s', family)
            && s'.rows.Keys == s.rows.Keys
            && forall draw | draw in s.rows && draw != access :: s'.rows[draw] == s.rows[draw]
  {
    assert RowHolds(s, access);
  }

  /** Revoking a device kills the family it names, if that is the caller's account's, and touches no
      row of another family; naming another account's family does nothing. */
  lemma RevokeEnds(s: State, access: Draw, family: Family, now: int)
    requires Sound(s) && Authenticate(s.rows, access, now).Some? && family in s.logins
    ensures var s', own := Next(s, Revoke(access, family, now)), s.rows[access].account;
            && s'.rows.Keys == s.rows.Keys
            && (s.logins[family].account == own ==> FamilyDead(s', family))
            && (s.logins[family].account != own ==> s'.rows == s.rows)
            && forall draw | draw in s.rows && s.rows[draw].family != family :: s'.rows[draw] == s.rows[draw]
  {
    assert forall draw | draw in s.rows :: RowHolds(s, draw);
  }

  /** The account's families that still work, but for one. */
  ghost function AliveBut(s: State, account: AccountId, family: Family): set<Family> {
    set draw | draw in s.rows && Live(s.rows[draw]) && s.rows[draw].account == account && s.rows[draw].family != family
      :: s.rows[draw].family
  }

  /** What the two revocations answer: a device is found exactly if its family is the account's and
      alive, and the others counted are the account's other live families, each once. */
  lemma RevocationsCount(s: State, account: AccountId, family: Family)
    requires Sound(s) && family in s.logins
    ensures Matching(s.rows, FamilyOf(account, family)) != {} <==>
            s.logins[family].account == account && !FamilyDead(s, family)
    ensures |Matching(s.rows, OtherFamilies(account, family))| == |AliveBut(s, account, family)|
  {
    assert forall draw | draw in s.rows :: RowHolds(s, draw);
    if s.logins[family].account == account && !FamilyDead(s, family) {
      var draw :| draw in s.rows && s.rows[draw].family == family && Live(s.rows[draw]);
      assert draw in Matching(s.rows, FamilyOf(account, family));
    }
    OneEach(s, Matching(s.rows, OtherFamilies(account, family)));
    assert FamiliesOf(s, Matching(s.rows, OtherFamilies(account, family))) == AliveBut(s, account, family);
  }

  ghost function FamiliesOf(s: State, draws: set<Draw>): set<Family>
    requires draws <= s.rows.Keys
  {
    set draw | draw in draws :: s.rows[draw].family
  }

  lemma {:induction false} OneEach(s: State, draws: set<Draw>)
    requires Sound(s) && draws <= s.rows.Keys && forall draw | draw in draws :: Live(s.rows[draw])
    ensures |FamiliesOf(s, draws)| == |draws|
  {
    if draws != {} {
      var draw :| draw in draws;
      var rest := draws - {draw};
      OneEach(s, rest);
      assert s.rows[draw].family !in FamiliesOf(s, rest);
      assert FamiliesOf(s, draws) == FamiliesOf(s, rest) + {s.rows[draw].family};
    }
  }

  /** An unauthenticated caller changes nothing by any of the three. */
  lemma OutsidersDoNothing(s: State, access: Draw, family: Family, now: int)
    requires Authenticate(s.rows, access, now).None?
    ensures Next(s, Logout(access, now)).rows == s.rows
    ensures Next(s, Revoke(access, family, now)).rows == s.rows
    ensures Next(s, RevokeOthers(access, now)).rows == s.rows
  {
  }

  /** After a logout, or a revocation of a family of the caller's account, no token of that family,
      old or new, ever works again. */
  lemma EndedForGood(trace: seq<State>, steps: seq<Step>, i: nat, j: nat, draw: Draw, now: int)
    requires Execution(trace, steps) && i < j <= |steps| && draw in trace[j].rows
    requires steps[i].Logout? || steps[i].Revoke?
    requires var (s, step, row) := (trace[i], steps[i], trace[j].rows[draw]);
             && Authenticate(s.rows, step.access, step.now).Some?
             && row.account == s.rows[step.access].account
             && row.family == (if step.Logout? then s.rows[step.access].family else step.family)
             && row.family in s.logins && s.logins[row.family].account == row.account
    ensures Authenticate(trace[j].rows, draw, now).None?
    ensures RefreshAnswer(trace[j].rows, draw, draw, now) == Reused
  {
    var s, step, family := trace[i], steps[i], trace[j].rows[draw].family;
    AlwaysSound(trace, steps, i);
    assert StepAt(trace, steps, i);
    if step.Logout? {
      LogoutEnds(s, step.access, step.now);
    } else {
      RevokeEnds(s, step.access, family, step.now);
    }
    DeadFamiliesStayOut(trace, steps, i + 1, j, family, draw, now);
  }

  predicate ActsFor(s: State, step: Step, account: AccountId) {
    match step
    case SignIn(a, _, _, _) => a == account
    case Refresh(presented, _, _) => presented in s.rows && s.rows[presented].account == account
    case Logout(access, _) => access in s.rows && s.rows[access].account == account
    case Revoke(access, _, _) => access in s.rows && s.rows[access].account == account
    case RevokeOthers(access, _) => access in s.rows && s.rows[access].account == account
    case EndAll(a, _) => a == account
  }

  /** One account's requests never touch another account's sessions, even when they name its
      families. */
  lemma AccountsAreApart(s: State, step: Step, account: AccountId, draw: Draw)
    requires Sound(s) && Possible(s, step) && !ActsFor(s, step, account)
    ensures draw in s.rows && s.rows[draw].account == account ==>
            draw in Next(s, step).rows && Next(s, step).rows[draw] == s.rows[draw]
    ensures draw in Next(s, step).rows && Next(s, step).rows[draw].account == account ==> draw in s.rows
  {
    assert forall d | d in s.rows :: RowHolds(s, d);
  }
}
