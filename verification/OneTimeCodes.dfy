/** One-time TOTP codes (server/vault-server/src/totp.rs:12-95 and consume_totp in
    server/vault-server/src/routes/mfa.rs:97-131), for section 5.2 of RFC 6238.

    The code of a time step is any function of secret and step. A call reads the row and later runs
    its guarded update; anything may happen in between. */
module OneTimeCodes {
  import opened Wrappers
  import opened RecoveryCode

  const STEP_SECS := 30
  const DIGITS := 6
  const DRIFT_STEPS := 1

  type Step = int
  type CallId = nat

  /** The code for each time step. With no active row, or an undecodable secret, there is none, and
      then no call matches, succeeds or writes. */
  type Codes = Option<nat -> string>

  /** Integer division as Rust has it, toward zero. */
  function TruncDiv(n: int, d: nat): int
    requires d > 0
  {
    if n >= 0 then n / d else -(-n / d)
  }

  function CodeAt(codes: Codes, time: int): Option<string> {
    match codes
    case None => None
    case Some(code) =>
      var step := TruncDiv(time, STEP_SECS);
      Some(code(if step >= 0 then step else 0))
  }

  function TrimStart(s: string): string {
    if s != "" && IsWhitespace(s[0]) then TrimStart(s[1..]) else s
  }

  function TrimEnd(s: string): string {
    if s != "" && IsWhitespace(s[|s| - 1]) then TrimEnd(s[..|s| - 1]) else s
  }

  predicate WellFormed(code: string) {
    |code| == DIGITS && forall k | 0 <= k < |code| :: '0' <= code[k] <= '9'
  }

  // ---- Which step a code names

  predicate MatchesAt(codes: Codes, code: string, now: int, drift: int) {
    CodeAt(codes, now + drift * STEP_SECS) == Some(code)
  }

  function StepAt(now: int, drift: int): Step {
    TruncDiv(now + drift * STEP_SECS, STEP_SECS)
  }

  /** The latest of the three windows whose code was submitted. */
  function MatchedStep(codes: Codes, submitted: string, now: int): Option<Step> {
    var code := TrimEnd(TrimStart(submitted));
    if !WellFormed(code) then None
    else if MatchesAt(codes, code, now, 1) then Some(StepAt(now, 1))
    else if MatchesAt(codes, code, now, 0) then Some(StepAt(now, 0))
    else if MatchesAt(codes, code, now, -1) then Some(StepAt(now, -1))
    else None
  }

  method VerifyStep(codes: Codes, submitted: string, now: int) returns (matched: Option<Step>)
    ensures matched == MatchedStep(codes, submitted, now)
  {
    var code := TrimEnd(TrimStart(submitted));
    if !WellFormed(code) {
      return None;
    }
    matched := None;
    for drift := -DRIFT_STEPS to DRIFT_STEPS + 1
      invariant matched ==
        if drift > 1 && MatchesAt(codes, code, now, 1) then Some(StepAt(now, 1))
        else if drift > 0 && MatchesAt(codes, code, now, 0) then Some(StepAt(now, 0))
        else if drift > -1 && MatchesAt(codes, code, now, -1) then Some(StepAt(now, -1))
        else None
    {
      var expected := CodeAt(codes, now + drift * STEP_SECS);
      if expected.Some? && expected.value == code {
        matched := Some(TruncDiv(now + drift * STEP_SECS, STEP_SECS));
      }
    }
  }

  /** A matched step is the clock's or a neighbour, and its code is what was submitted. */
  lemma MatchedIsNear(codes: Codes, submitted: string, now: int)
    requires MatchedStep(codes, submitted, now).Some?
    ensures var step := MatchedStep(codes, submitted, now).value;
            && TruncDiv(now, STEP_SECS) - 1 <= step <= TruncDiv(now, STEP_SECS) + 1
            && codes.Some?
            && codes.value(if step >= 0 then step else 0) == TrimEnd(TrimStart(submitted))
  {
  }

  /** A step within one of the clock's whose code was submitted. Steps below 0 have the code of 0. */
  predicate Accepts(codes: Codes, submitted: string, now: int, step: Step) {
    && codes.Some? && WellFormed(TrimEnd(TrimStart(submitted)))
    && TruncDiv(now, STEP_SECS) - 1 <= step <= TruncDiv(now, STEP_SECS) + 1
    && codes.value(if step >= 0 then step else 0) == TrimEnd(TrimStart(submitted))
  }

  /** For clocks from 1970 on the windows are the steps before, at and after the clock's. */
  lemma WindowsAre(now: nat, drift: int)
    requires -1 <= drift <= 1
    ensures StepAt(now, drift) == (if 0 < now < STEP_SECS && drift < 0 then 0 else now / STEP_SECS + drift)
  {
  }

  /** The current code, the one before and the one after are accepted, and the latest of the steps
      with that code is taken; nothing else is accepted. */
  lemma MatchesExactly(codes: Codes, submitted: string, now: nat, step: nat)
    ensures MatchedStep(codes, submitted, now) == Some(step) <==>
            && Accepts(codes, submitted, now, step)
            && forall later | step < later <= now / STEP_SECS + 1 :: !Accepts(codes, submitted, now, later)
    ensures MatchedStep(codes, submitted, now).None? <==>
            forall near: nat | now / STEP_SECS - 1 <= near <= now / STEP_SECS + 1 :: !Accepts(codes, submitted, now, near)
  {
    WindowsAre(now, -1);
    WindowsAre(now, 0);
    WindowsAre(now, 1);
    var current := now / STEP_SECS;
    if MatchedStep(codes, submitted, now).None? {
      forall near: nat | current - 1 <= near <= current + 1 ensures !Accepts(codes, submitted, now, near) {
        assert near == current - 1 || near == current || near == current + 1;
      }
    } else {
      assert Accepts(codes, submitted, now, MatchedStep(codes, submitted, now).value);
    }
  }

  /** So an account that has used no step so late takes a code it should, and records its step. */
  lemma GoodCodeIsTaken(codes: Codes, s: State, call: CallId, submitted: string, now: nat, step: nat)
    requires call !in s.calls && Accepts(codes, submitted, now, step) && Newer(step, s.lastUsedStep)
    ensures var read := Next(codes, s, Reads(call, submitted, now));
            && read.calls[call].Waiting? && read.calls[call].step >= step
            && var done := Next(codes, read, Updates(call));
               done.calls[call] == Finished(true) && done.lastUsedStep == Some(read.calls[call].step)
  {
    MatchesExactly(codes, submitted, now, step);
    var matched := MatchedStep(codes, submitted, now);
    WindowsAre(now, -1);
    WindowsAre(now, 0);
    WindowsAre(now, 1);
    assert matched.Some?;
    MatchesExactly(codes, submitted, now, matched.value);
  }

  // ---- What may be typed

  predicate SixDigits(code: string) {
    |code| == 6 && forall k | 0 <= k < 6 :: code[k] in {'0', '1', '2', '3', '4', '5', '6', '7', '8', '9'}
  }

  predicate AllBlank(s: string) {
    forall k | 0 <= k < |s| :: IsWhitespace(s[k])
  }

  lemma {:induction false} TrimsBefore(before: string, rest: string)
    requires AllBlank(before) && rest != "" && !IsWhitespace(rest[0])
    ensures TrimStart(before + rest) == rest
  {
    if before == "" {
      assert before + rest == rest;
    } else {
      assert (before + rest)[1..] == before[1..] + rest;
      TrimsBefore(before[1..], rest);
    }
  }

  lemma {:induction false} TrimsAfter(rest: string, after: string)
    requires AllBlank(after) && rest != "" && !IsWhitespace(rest[|rest| - 1])
    ensures TrimEnd(rest + after) == rest
  {
    if after == "" {
      assert rest + after == rest;
    } else {
      var n := |rest + after| - 1;
      assert (rest + after)[..n] == rest + after[..|after| - 1];
      TrimsAfter(rest, after[..|after| - 1]);
    }
  }

  lemma {:induction false} TrimStartCuts(s: string)
    ensures exists before :: AllBlank(before) && s == before + TrimStart(s)
  {
    if s != "" && IsWhitespace(s[0]) {
      TrimStartCuts(s[1..]);
      var before :| AllBlank(before) && s[1..] == before + TrimStart(s[1..]);
      assert AllBlank([s[0]] + before) && s == ([s[0]] + before) + TrimStart(s);
    } else {
      assert AllBlank("") && s == "" + TrimStart(s);
    }
  }

  lemma {:induction false} TrimEndCuts(s: string)
    ensures exists after :: AllBlank(after) && s == TrimEnd(s) + after
  {
    if s != "" && IsWhitespace(s[|s| - 1]) {
      var n := |s| - 1;
      TrimEndCuts(s[..n]);
      var after :| AllBlank(after) && s[..n] == TrimEnd(s[..n]) + after;
      assert AllBlank(after + [s[n]]) && s == TrimEnd(s) + (after + [s[n]]);
    } else {
      assert AllBlank("") && s == TrimEnd(s) + "";
    }
  }

  lemma DigitsAreWellFormed(code: string)
    ensures WellFormed(code) <==> SixDigits(code)
  {
  }

  /** A text of six digits with blanks around them is read as those digits. */
  lemma BlanksDoNotMatter(codes: Codes, before: string, code: string, after: string, now: nat, step: nat)
    requires AllBlank(before) && SixDigits(code) && AllBlank(after) && codes.Some?
    ensures Accepts(codes, before + code + after, now, step) <==>
            now / 30 - 1 <= step <= now / 30 + 1 && codes.value(step) == code
  {
    DigitsAreWellFormed(code);
    assert before + code + after == before + (code + after);
    TrimsBefore(before, code + after);
    TrimsAfter(code, after);
  }

  /** No other text is accepted at all. */
  lemma OnlyDigitsAreAccepted(codes: Codes, submitted: string, now: int)
    requires MatchedStep(codes, submitted, now).Some?
    ensures exists before, code, after :: AllBlank(before) && SixDigits(code) && AllBlank(after)
              && submitted == before + code + after
  {
    TrimStartCuts(submitted);
    var before :| AllBlank(before) && submitted == before + TrimStart(submitted);
    TrimEndCuts(TrimStart(submitted));
    var code := TrimEnd(TrimStart(submitted));
    var after :| AllBlank(after) && TrimStart(submitted) == code + after;
    DigitsAreWellFormed(code);
    assert submitted == before + code + after;
  }

  // ---- Consuming a code

  /** The row of an account, active if it has codes. */
  class TotpRow {
    const codes: Codes
    var lastUsedStep: Option<Step>

    constructor (codes: Codes)
      ensures this.codes == codes && lastUsedStep == None
    {
      this.codes, lastUsedStep := codes, None;
    }

    /** The update's own condition, and its effect. */
    method GuardedUpdate(step: Step) returns (won: bool)
      modifies this
      ensures won == Newer(step, old(lastUsedStep))
      ensures lastUsedStep == if won then Some(step) else old(lastUsedStep)
    {
      won := lastUsedStep.None? || lastUsedStep.value < step;
      if won {
        lastUsedStep := Some(step);
      }
    }

    /** An uninterrupted call. */
    method Consume(submitted: string, now: int) returns (ok: bool)
      modifies this
      ensures ok <==> MatchedStep(codes, submitted, now).Some?
                      && Newer(MatchedStep(codes, submitted, now).value, old(lastUsedStep))
      ensures lastUsedStep == if ok then MatchedStep(codes, submitted, now) else old(lastUsedStep)
    {
      var step := VerifyStep(codes, submitted, now);
      if step.None? {
        return false;
      }
      if lastUsedStep.Some? && step.value <= lastUsedStep.value {
        return false;
      }
      ok := GuardedUpdate(step.value);
    }
  }

  predicate Newer(step: Step, last: Option<Step>) {
    last.None? || last.value < step
  }

  // ---- Interleaved calls

  datatype Call = Waiting(step: Step, now: int) | Finished(ok: bool)

  /** The row's last used step, every call so far, and the steps that successful calls recorded,
      in order and with their clocks. */
  datatype Recorded = Recorded(call: CallId, step: Step, now: int)

  datatype State = State(lastUsedStep: Option<Step>, calls: map<CallId, Call>, recorded: seq<Recorded>)

  const START := State(None, map[], [])

  datatype Move =
    | Reads(call: CallId, submitted: string, now: int)
    | Updates(call: CallId)

  predicate Possible(s: State, move: Move) {
    match move
    case Reads(call, _, _) => call !in s.calls
    case Updates(call) => call in s.calls && s.calls[call].Waiting?
  }

  function Next(codes: Codes, s: State, move: Move): State
    requires Possible(s, move)
  {
    match move
    case Reads(call, submitted, now) =>
      var matched := MatchedStep(codes, submitted, now);
      var replayed := matched.Some? && s.lastUsedStep.Some? && matched.value <= s.lastUsedStep.value;
      s.(calls := s.calls[call := if matched.None? || replayed then Finished(false) else Waiting(matched.value, now)])
    case Updates(call) =>
      var w := s.calls[call];
      if Newer(w.step, s.lastUsedStep)
      then State(Some(w.step), s.calls[call := Finished(true)], s.recorded + [Recorded(call, w.step, w.now)])
      else s.(calls := s.calls[call := Finished(false)])
  }

  predicate MoveAt(codes: Codes, trace: seq<State>, moves: seq<Move>, i: nat)
    requires i < |moves| && |trace| == |moves| + 1
  {
    Possible(trace[i], moves[i]) && trace[i + 1] == Next(codes, trace[i], moves[i])
  }

  predicate Execution(codes: Codes, trace: seq<State>, moves: seq<Move>) {
    && |trace| == |moves| + 1 && trace[0] == START
    && forall i | 0 <= i < |moves| :: MoveAt(codes, trace, moves, i)
  }

  predicate Near(step: Step, now: int) {
    TruncDiv(now, STEP_SECS) - 1 <= step <= TruncDiv(now, STEP_SECS) + 1
  }

  predicate StrictlyIncreasing(recorded: seq<Recorded>) {
    forall i, j | 0 <= i < j < |recorded| :: recorded[i].step < recorded[j].step
  }

  /** A recorded step came from a call that succeeded, near that call's clock. */
  predicate RecordHolds(s: State, k: nat)
    requires k < |s.recorded|
  {
    var r := s.recorded[k];
    Near(r.step, r.now) && r.call in s.calls && s.calls[r.call] == Finished(true)
  }

  predicate CallHolds(s: State, call: CallId)
    requires call in s.calls
  {
    match s.calls[call]
    case Waiting(step, now) => Near(step, now)
    case Finished(ok) => ok ==> exists r | r in s.recorded :: r.call == call
  }

  ghost predicate Consistent(s: State) {
    && StrictlyIncreasing(s.recorded)
    && s.lastUsedStep == (if s.recorded == [] then None else Some(s.recorded[|s.recorded| - 1].step))
    && (forall k | 0 <= k < |s.recorded| :: RecordHolds(s, k))
    && (forall call | call in s.calls :: CallHolds(s, call))
  }

  lemma ReadKeepsConsistent(codes: Codes, s: State, move: Move)
    requires Consistent(s) && Possible(s, move) && move.Reads?
    ensures Consistent(Next(codes, s, move))
  {
    var s' := Next(codes, s, move);
    if MatchedStep(codes, move.submitted, move.now).Some? {
      MatchedIsNear(codes, move.submitted, move.now);
    }
    forall k | 0 <= k < |s'.recorded| ensures RecordHolds(s', k) {
      assert RecordHolds(s, k);
    }
    forall call | call in s'.calls ensures CallHolds(s', call) {
      assert call != move.call ==> CallHolds(s, call);
    }
  }

  lemma UpdateKeepsConsistent(codes: Codes, s: State, move: Move)
    requires Consistent(s) && Possible(s, move) && move.Updates?
    ensures Consistent(Next(codes, s, move))
  {
    var s' := Next(codes, s, move);
    assert CallHolds(s, move.call);
    forall k | 0 <= k < |s'.recorded| ensures RecordHolds(s', k) {
      assert k < |s.recorded| ==> RecordHolds(s, k);
    }
    forall call | call in s'.calls ensures CallHolds(s', call) {
      if call == move.call {
        if s'.calls[call] == Finished(true) {
          assert s'.recorded[|s.recorded|] in s'.recorded;
        }
      } else {
        assert CallHolds(s, call);
        assert forall r | r in s.recorded :: r in s'.recorded;
      }
    }
  }

  /** An update ends its call, for the winner and the loser, and touches no other; a loser changes
      nothing else. */
  lemma UpdateEndsCall(codes: Codes, s: State, call: CallId, other: CallId)
    requires Possible(s, Updates(call))
    ensures var next, won := Next(codes, s, Updates(call)), Newer(s.calls[call].step, s.lastUsedStep);
            && next.calls[call] == Finished(won)
            && (other != call ==> (other in next.calls <==> other in s.calls)
                                  && (other in s.calls ==> next.calls[other] == s.calls[other]))
            && (won ==> next.lastUsedStep == Some(s.calls[call].step))
            && (!won ==> next.lastUsedStep == s.lastUsedStep && next.recorded == s.recorded)
  {
  }

  /** A call whose read and update run back to back is `TotpRow.Consume`. */
  lemma UninterruptedCall(codes: Codes, s: State, call: CallId, submitted: string, now: int)
    requires call !in s.calls
    ensures var read := Next(codes, s, Reads(call, submitted, now));
            var done := if read.calls[call].Waiting? then Next(codes, read, Updates(call)) else read;
            var matched := MatchedStep(codes, submitted, now);
            var ok := matched.Some? && Newer(matched.value, s.lastUsedStep);
            done.calls[call] == Finished(ok)
            && done.lastUsedStep == if ok then matched else s.lastUsedStep
  {
  }

  /** However calls interleave, the steps of successful calls strictly increase, so no step is
      consumed twice; each is within one step of its call's clock, and the row holds the last. */
  lemma {:induction false} StepsAreUsedOnce(codes: Codes, trace: seq<State>, moves: seq<Move>, i: nat)
    requires Execution(codes, trace, moves) && i <= |moves|
    ensures Consistent(trace[i])
  {
    if i > 0 {
      StepsAreUsedOnce(codes, trace, moves, i - 1);
      assert MoveAt(codes, trace, moves, i - 1);
      if moves[i - 1].Reads? {
        ReadKeepsConsistent(codes, trace[i - 1], moves[i - 1]);
      } else {
        UpdateKeepsConsistent(codes, trace[i - 1], moves[i - 1]);
      }
    }
  }

  /** Of calls that matched the same step, at most one succeeds. */
  lemma OneWinnerPerStep(codes: Codes, trace: seq<State>, moves: seq<Move>, i: nat, a: Recorded, b: Recorded)
    requires Execution(codes, trace, moves) && i <= |moves|
    requires a in trace[i].recorded && b in trace[i].recorded && a.step == b.step
    ensures a == b
  {
    StepsAreUsedOnce(codes, trace, moves, i);
  }
}
