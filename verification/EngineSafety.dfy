/** What a sync guarantees whatever the server answers: the cursor, the untouched replica on a
    refused first pull, and the fate of every queued op. */
module EngineSafety {
  import opened Wrappers
  import opened SyncTypes
  import opened MemoryVault
  import opened Engine

  /** The server's rulings on the front of the queue: the leading push answers, at most `limit`. */
  function Rulings(answers: seq<Answer>, limit: nat): (rulings: seq<PushOutcome>)
    ensures |rulings| <= limit && |rulings| <= |answers|
    ensures forall k | 0 <= k < |rulings| :: answers[k] == Pushed(rulings[k])
    ensures |rulings| < limit && |rulings| < |answers| ==> !answers[|rulings|].Pushed?
  {
    if limit == 0 || answers == [] || !answers[0].Pushed? then []
    else [answers[0].outcome] + Rulings(answers[1..], limit - 1)
  }

  /** The ops ruled accepted, in queue order. */
  function Accepts(ops: seq<PendingOp>, rulings: seq<PushOutcome>): seq<PendingOp>
    requires |rulings| <= |ops|
  {
    if rulings == [] then []
    else (if rulings[0].Accepted? then [ops[0]] else []) + Accepts(ops[1..], rulings[1..])
  }

  /** The ops ruled conflicting, in queue order, each with the state the server reported. */
  function Losses(ops: seq<PendingOp>, rulings: seq<PushOutcome>): seq<LostOp>
    requires |rulings| <= |ops|
  {
    if rulings == [] then []
    else (if rulings[0].Accepted? then [] else [LostOp(ops[0].Item(), ops[0], rulings[0].current)])
         + Losses(ops[1..], rulings[1..])
  }

  function LosingOps(conflicts: seq<LostOp>): seq<PendingOp> {
    seq(|conflicts|, k requires 0 <= k < |conflicts| => conflicts[k].losingOp)
  }

  /** `whole` is an order-preserving merge of `left` and `right`. */
  ghost predicate IsMerge(whole: seq<PendingOp>, left: seq<PendingOp>, right: seq<PendingOp>)
    decreases |whole|
  {
    if whole == [] then left == [] && right == []
    else
      (left != [] && left[0] == whole[0] && IsMerge(whole[1..], left[1..], right))
      || (right != [] && right[0] == whole[0] && IsMerge(whole[1..], left, right[1..]))
  }

  lemma {:induction false} AcceptsAndLossesMerge(ops: seq<PendingOp>, rulings: seq<PushOutcome>)
    requires |rulings| <= |ops|
    ensures IsMerge(ops[..|rulings|], Accepts(ops, rulings), LosingOps(Losses(ops, rulings)))
  {
    if rulings != [] {
      AcceptsAndLossesMerge(ops[1..], rulings[1..]);
      assert ops[..|rulings|] == [ops[0]] + ops[1..][..|rulings[1..]|];
      MergeOne(ops[0], ops[1..][..|rulings[1..]|], Accepts(ops[1..], rulings[1..]),
               LosingOps(Losses(ops[1..], rulings[1..])));
      LosingOpsStep(ops, rulings);
      AcceptsStep(ops, rulings);
    }
  }

  lemma LosingOpsPrepend(lost: LostOp, rest: seq<LostOp>)
    ensures LosingOps([lost] + rest) == [lost.losingOp] + LosingOps(rest)
  {
  }

  lemma LosingOpsStep(ops: seq<PendingOp>, rulings: seq<PushOutcome>)
    requires 0 < |rulings| <= |ops|
    ensures var rest := LosingOps(Losses(ops[1..], rulings[1..]));
            LosingOps(Losses(ops, rulings)) == if rulings[0].Accepted? then rest else [ops[0]] + rest
  {
    var rest := Losses(ops[1..], rulings[1..]);
    if rulings[0].Accepted? {
      assert [] + rest == rest;
    } else {
      LosingOpsPrepend(LostOp(ops[0].Item(), ops[0], rulings[0].current), rest);
    }
  }

  lemma AcceptsStep(ops: seq<PendingOp>, rulings: seq<PushOutcome>)
    requires 0 < |rulings| <= |ops|
    ensures var rest := Accepts(ops[1..], rulings[1..]);
            Accepts(ops, rulings) == if rulings[0].Accepted? then [ops[0]] + rest else rest
  {
  }

  lemma {:induction false} EachIsOneOrTheOther(ops: seq<PendingOp>, rulings: seq<PushOutcome>)
    requires |rulings| <= |ops|
    ensures |Accepts(ops, rulings)| + |Losses(ops, rulings)| == |rulings|
  {
    if rulings != [] {
      EachIsOneOrTheOther(ops[1..], rulings[1..]);
    }
  }

  lemma MergeOne(op: PendingOp, whole: seq<PendingOp>, left: seq<PendingOp>, right: seq<PendingOp>)
    requires IsMerge(whole, left, right)
    ensures IsMerge([op] + whole, [op] + left, right) && IsMerge([op] + whole, left, [op] + right)
  {
    assert ([op] + whole)[1..] == whole && ([op] + left)[1..] == left && ([op] + right)[1..] == right;
  }

  /** The run is past its first pull, with `pulled` the sequence number that pull reported. */
  predicate PastPull(run: Run, pulled: int) {
    run.Active() && run.progress == if run.replica.queue == [] then Tailing(pulled) else Pushing(pulled)
  }

  lemma LossesGrow(conflicts: seq<LostOp>, ops: seq<PendingOp>, rulings: seq<PushOutcome>)
    requires 0 < |rulings| <= |ops| && rulings[0].Conflict?
    ensures conflicts + Losses(ops, rulings) ==
            conflicts + [LostOp(ops[0].Item(), ops[0], rulings[0].current)] + Losses(ops[1..], rulings[1..])
  {
    var lost, later := [LostOp(ops[0].Item(), ops[0], rulings[0].current)], Losses(ops[1..], rulings[1..]);
    assert Losses(ops, rulings) == lost + later;
    assert conflicts + lost + later == conflicts + (lost + later);
  }

  /** Where a run past its first pull leaves the queue. */
  lemma {:induction false} PushPhaseQueue(run: Run, script: seq<Answer>, pulled: int)
    requires PastPull(run, pulled)
    ensures var end, queue := Drive(run, script), run.replica.queue;
            && end.replica.queue == queue[|Rulings(script, |queue|)|..]
            && (end.progress.outcome.Ok? ==>
                |Rulings(script, |queue|)| == |queue| && end.progress.outcome.value == end.report)
    decreases |script|
  {
    var queue, rulings := run.replica.queue, Rulings(script, |run.replica.queue|);
    if rulings == [] {
      Unroll(run, script);
      assert queue[0..] == queue;
    } else {
      PushPhaseQueue(Deliver(run, script[0]), script[1..], pulled);
      assert queue[1..][|rulings| - 1..] == queue[|rulings|..];
    }
  }

  /** One ruling, as the run, the report and the rest of the script see it. */
  lemma RulingStep(run: Run, script: seq<Answer>, pulled: int)
    requires PastPull(run, pulled) && run.replica.queue != [] && script != [] && script[0].Pushed?
    ensures var next, n := Deliver(run, script[0]), |run.replica.queue|;
            && PastPull(next, pulled) && next.replica.queue == run.replica.queue[1..]
            && next.report.pushed == run.report.pushed + (if script[0].outcome.Accepted? then 1 else 0)
            && Drive(run, script) == Drive(next, script[1..])
            && Requests(run, script) == [AskPush(run.replica.queue[0])] + Requests(next, script[1..])
            && Rulings(script, n) == [script[0].outcome] + Rulings(script[1..], n - 1)
  {
  }

  /** How many rulings are acceptances. */
  function Taken(rulings: seq<PushOutcome>): nat {
    if rulings == [] then 0 else (if rulings[0].Accepted? then 1 else 0) + Taken(rulings[1..])
  }

  lemma {:induction false} AcceptsAreTaken(ops: seq<PendingOp>, rulings: seq<PushOutcome>)
    requires |rulings| <= |ops|
    ensures |Accepts(ops, rulings)| == Taken(rulings)
  {
    if rulings != [] {
      AcceptsAreTaken(ops[1..], rulings[1..]);
    }
  }

  lemma TakenStep(first: PushOutcome, rest: seq<PushOutcome>)
    ensures Taken([first] + rest) == (if first.Accepted? then 1 else 0) + Taken(rest)
  {
    assert ([first] + rest)[1..] == rest;
  }

  /** What a run past its first pull counts as pushed. */
  lemma {:induction false} PushPhaseCount(run: Run, script: seq<Answer>, pulled: int)
    requires PastPull(run, pulled)
    ensures Drive(run, script).report.pushed == run.report.pushed + Taken(Rulings(script, |run.replica.queue|))
    decreases |script|
  {
    var n := |run.replica.queue|;
    if Rulings(script, n) == [] {
      NoRuling(run, script, pulled);
    } else {
      RulingStep(run, script, pulled);
      TakenStep(script[0].outcome, Rulings(script[1..], n - 1));
      PushPhaseCount(Deliver(run, script[0]), script[1..], pulled);
    }
  }

  lemma NoRuling(run: Run, script: seq<Answer>, pulled: int)
    requires PastPull(run, pulled) && Rulings(script, |run.replica.queue|) == []
    ensures Drive(run, script).report == run.report
  {
    Unroll(run, script);
  }

  /** What a run past its first pull reports as lost. */
  lemma {:induction false} PushPhaseLosses(run: Run, script: seq<Answer>, pulled: int)
    requires PastPull(run, pulled)
    ensures var end, queue := Drive(run, script), run.replica.queue;
            end.report.conflicts == run.report.conflicts + Losses(queue, Rulings(script, |queue|))
    decreases |script|
  {
    var queue, rulings := run.replica.queue, Rulings(script, |run.replica.queue|);
    if rulings == [] {
      Unroll(run, script);
    } else {
      PushPhaseLosses(Deliver(run, script[0]), script[1..], pulled);
      if rulings[0].Conflict? {
        LossesGrow(run.report.conflicts, queue, rulings);
      } else {
        assert Losses(queue, rulings) == Losses(queue[1..], rulings[1..]);
      }
    }
  }

  /** When a run past its first pull succeeds, and the cursor it leaves. */
  lemma {:induction false} PushPhaseCursor(run: Run, script: seq<Answer>, pulled: int)
    requires PastPull(run, pulled)
    ensures var end := Drive(run, script);
            var n := |run.replica.queue|;
            && (end.progress.outcome.Ok? <==>
                |Rulings(script, n)| == n < |script| && script[n].Pulled? && script[n].response.latestSeq >= pulled)
            && (end.progress.outcome.Ok? ==>
                end.replica.lastSeq == if script[n].response.fullResync then pulled else script[n].response.latestSeq)
            && (end.progress.outcome.Err? ==> end.replica.lastSeq == run.replica.lastSeq)
    decreases |script|
  {
    var n := |run.replica.queue|;
    if n == 0 || Rulings(script, n) == [] {
      Unroll(run, script);
    } else {
      PushPhaseCursor(Deliver(run, script[0]), script[1..], pulled);
      assert n < |script| ==> script[1..][n - 1] == script[n];
    }
  }

  /** Whether the script's first answer is a pull the engine goes on with. */
  predicate FirstPullHolds(replica: Replica, script: seq<Answer>) {
    script != [] && script[0].Pulled? && script[0].response.latestSeq >= replica.lastSeq
  }

  /** For every server: the cursor never moves back on any path, moves only on success, and then
      reaches at least the first pull's and never falls below the old floor; a first pull that
      fails or regresses leaves items, queue and cursor as they were. */
  lemma CursorIsSafe(replica: Replica, script: seq<Answer>)
    ensures var end := Drive(Begin(replica), script);
            && end.replica.lastSeq >= replica.lastSeq
            && (end.progress.outcome.Err? ==> end.replica.lastSeq == replica.lastSeq)
            && (end.progress.outcome.Ok? ==>
                FirstPullHolds(replica, script)
                && end.replica.lastSeq >= script[0].response.latestSeq)
            && (!FirstPullHolds(replica, script) ==>
                end.replica == replica && end.progress.outcome.Err?)
            && (script != [] && script[0].Pulled? && script[0].response.latestSeq < replica.lastSeq ==>
                end.progress.outcome == Err(RollbackDetected(replica.lastSeq, script[0].response.latestSeq)))
  {
    var start := Begin(replica);
    Unroll(start, script);
    if FirstPullHolds(replica, script) {
      PushPhaseCursor(Deliver(start, script[0]), script[1..], script[0].response.latestSeq);
    }
  }

  /** The server's rulings in a whole sync: answer 0 is the first pull's. */
  function SyncRulings(replica: Replica, script: seq<Answer>): (rulings: seq<PushOutcome>)
    ensures |rulings| <= |replica.queue|
    ensures forall k | 0 <= k < |rulings| :: k + 1 < |script| && script[k + 1] == Pushed(rulings[k])
  {
    if FirstPullHolds(replica, script) then Rulings(script[1..], |replica.queue|) else []
  }

  /** What a whole sync leaves of the queue and writes in the report, in terms of the rulings. */
  lemma SyncFollowsRulings(replica: Replica, script: seq<Answer>)
    ensures var end, rulings := Drive(Begin(replica), script), SyncRulings(replica, script);
            && end.replica.queue == replica.queue[|rulings|..]
            && end.report.pushed == |Accepts(replica.queue, rulings)|
            && end.report.conflicts == Losses(replica.queue, rulings)
            && (end.progress.outcome.Ok? ==>
                |rulings| == |replica.queue| && end.progress.outcome.value == end.report)
  {
    var start := Begin(replica);
    Unroll(start, script);
    if FirstPullHolds(replica, script) {
      var rulings := SyncRulings(replica, script);
      var next, pulled := Deliver(start, script[0]), script[0].response.latestSeq;
      PushPhaseQueue(next, script[1..], pulled);
      PushPhaseCount(next, script[1..], pulled);
      AcceptsAreTaken(replica.queue, rulings);
      PushPhaseLosses(next, script[1..], pulled);
    } else {
      assert replica.queue[0..] == replica.queue;
    }
  }

  /** For every server: at every exit the queue is a suffix of the initial queue, and op `k` is
      gone exactly when answer `k + 1` ruled on it; accepted ops and reported conflicts merge, in
      order, to the removed prefix. On success nothing is left, so the report accounts for every
      op exactly once. */
  lemma OpsAreConserved(replica: Replica, script: seq<Answer>)
    ensures var end, rulings := Drive(Begin(replica), script), SyncRulings(replica, script);
            && end.replica.queue == replica.queue[|rulings|..]
            && (forall k | 0 <= k < |rulings| :: script[k + 1] == Pushed(rulings[k]))
            && end.report.pushed == |Accepts(replica.queue, rulings)|
            && end.report.conflicts == Losses(replica.queue, rulings)
            && end.report.pushed + |end.report.conflicts| == |rulings|
            && IsMerge(replica.queue[..|rulings|], Accepts(replica.queue, rulings), LosingOps(end.report.conflicts))
            && (end.progress.outcome.Ok? ==>
                && end.progress.outcome.value == end.report
                && end.replica.queue == []
                && |rulings| == |replica.queue|
                && IsMerge(replica.queue, Accepts(replica.queue, rulings), LosingOps(end.report.conflicts)))
  {
    var rulings := SyncRulings(replica, script);
    SyncFollowsRulings(replica, script);
    AcceptsAndLossesMerge(replica.queue, rulings);
    EachIsOneOrTheOther(replica.queue, rulings);
    assert |rulings| == |replica.queue| ==> replica.queue[..|rulings|] == replica.queue;
  }

  // ---- What an error costs

  /** The ops the caller learns to have lost: an error carries no report. */
  function Told(outcome: Result<SyncReport, EngineError>): seq<PendingOp> {
    match outcome
    case Ok(report) => LosingOps(report.conflicts)
    case Err(_) => []
  }

  /** The ops that leave the queue unaccepted without the caller learning of it: on an error, those
      that had lost before it. */
  function Vanished(replica: Replica, script: seq<Answer>): seq<PendingOp> {
    if Drive(Begin(replica), script).progress.outcome.Ok? then []
    else LosingOps(Losses(replica.queue, SyncRulings(replica, script)))
  }

  predicate SomeConflict(rulings: seq<PushOutcome>) {
    exists k | 0 <= k < |rulings| :: rulings[k].Conflict?
  }

  lemma {:induction false} LossesAreConflicts(ops: seq<PendingOp>, rulings: seq<PushOutcome>)
    requires |rulings| <= |ops|
    ensures Losses(ops, rulings) != [] <==> SomeConflict(rulings)
  {
    if rulings != [] {
      LossesAreConflicts(ops[1..], rulings[1..]);
      if SomeConflict(rulings[1..]) {
        var k :| 0 <= k < |rulings[1..]| && rulings[1..][k].Conflict?;
        assert rulings[k + 1].Conflict?;
      }
      if SomeConflict(rulings) && !rulings[0].Conflict? {
        var k :| 0 <= k < |rulings| && rulings[k].Conflict?;
        assert rulings[1..][k - 1].Conflict?;
      }
    }
  }

  /** For every server and at every exit each queued op is accepted, still queued, told to the caller
      as lost, or vanished: gone without a trace for the user. Ops vanish exactly when the sync ends
      in an error after some op conflicted, and then all that had conflicted do. */
  lemma ErrorsLoseConflicts(replica: Replica, script: seq<Answer>)
    ensures var end, rulings := Drive(Begin(replica), script), SyncRulings(replica, script);
            && IsMerge(replica.queue[..|rulings|], Accepts(replica.queue, rulings),
                       Told(end.progress.outcome) + Vanished(replica, script))
            && end.replica.queue == replica.queue[|rulings|..]
            && (Vanished(replica, script) != [] <==> end.progress.outcome.Err? && SomeConflict(rulings))
  {
    var rulings := SyncRulings(replica, script);
    OpsAreConserved(replica, script);
    LossesAreConflicts(replica.queue, rulings);
    var losing := LosingOps(Losses(replica.queue, rulings));
    assert losing + [] == losing && [] + losing == losing;
  }

  /** An edit that conflicted just before the network failed: not queued, not reported, and not in
      the replica. */
  lemma ConflictVanishes(replica: Replica, op: PendingOp, first: PullResponse, remote: RemoteItem)
    requires replica.queue == [op] && first.latestSeq >= replica.lastSeq
    ensures var script := [Pulled(first), Pushed(Conflict(Some(remote))), Failed(Network)];
            var end := Drive(Begin(replica), script);
            && end.progress.outcome == Err(Transport(Network)) && end.replica.queue == []
            && Vanished(replica, script) == [op]
            && remote.itemId in end.replica.items && end.replica.items[remote.itemId] == Stored(remote)
  {
    var script := [Pulled(first), Pushed(Conflict(Some(remote))), Failed(Network)];
    var pushing := Deliver(Begin(replica), script[0]);
    var tailing := Deliver(pushing, script[1]);
    assert script[1..][1..] == [Failed(Network)];
    Unroll(Begin(replica), script);
    Unroll(pushing, script[1..]);
    Unroll(tailing, [Failed(Network)]);
    assert Rulings(script[1..], 1) == [Conflict(Some(remote))];
    assert Losses(replica.queue, [Conflict(Some(remote))]) == [LostOp(op.Item(), op, Some(remote))];
  }

  // ---- Every outcome, request and count, read off the answers

  /** Why a sync stops at answer `k`: there is none, it is a failure, or it is of the wrong shape. */
  function Cause(script: seq<Answer>, k: nat): TransportError {
    if k >= |script| then Network
    else match script[k] case Failed(error) => error case _ => Rejected
  }

  predicate PulledAt(script: seq<Answer>, k: nat) {
    k < |script| && script[k].Pulled?
  }

  /** Where the script ends a run past its first pull: at the first of `n` ops that gets no ruling, or
      at the tail pull behind them. */
  function Ending(script: seq<Answer>, n: nat, m: nat, pulled: int, report: SyncReport): Result<SyncReport, EngineError> {
    if m < n then Err(Transport(Cause(script, m)))
    else if !PulledAt(script, n) then Err(Transport(Cause(script, n)))
    else if script[n].response.latestSeq < pulled then Err(RollbackDetected(pulled, script[n].response.latestSeq))
    else Ok(report)
  }

  lemma EndingLater(script: seq<Answer>, n: nat, m: nat, pulled: int, report: SyncReport)
    requires script != [] && 0 < m <= n
    ensures Ending(script, n, m, pulled, report) == Ending(script[1..], n - 1, m - 1, pulled, report)
  {
    assert forall k | 0 < k < |script| :: script[1..][k - 1] == script[k];
  }

  lemma EndsNow(run: Run, script: seq<Answer>, pulled: int)
    requires PastPull(run, pulled) && Rulings(script, |run.replica.queue|) == []
    ensures var end := Drive(run, script);
            end.progress.outcome == Ending(script, |run.replica.queue|, 0, pulled, end.report)
  {
    Unroll(run, script);
  }

  lemma {:induction false} PushPhaseOutcome(run: Run, script: seq<Answer>, pulled: int)
    requires PastPull(run, pulled)
    ensures var n, end := |run.replica.queue|, Drive(run, script);
            end.progress.outcome == Ending(script, n, |Rulings(script, n)|, pulled, end.report)
    decreases |script|
  {
    var n := |run.replica.queue|;
    if Rulings(script, n) == [] {
      EndsNow(run, script, pulled);
    } else {
      RulingStep(run, script, pulled);
      PushPhaseOutcome(Deliver(run, script[0]), script[1..], pulled);
      EndingLater(script, n, |Rulings(script, n)|, pulled, Drive(run, script).report);
    }
  }

  /** How a sync ends, for every server. A rollback is reported exactly when the first pull is below
      the cursor or the tail pull below the first, with those two numbers; a transport error
      exactly at the first answer that is no answer to what was asked; and success otherwise. */
  lemma OutcomeExactly(replica: Replica, script: seq<Answer>)
    ensures var n, end := |replica.queue|, Drive(Begin(replica), script);
            var m := |SyncRulings(replica, script)|;
            end.progress.outcome ==
              if !PulledAt(script, 0) then Err(Transport(Cause(script, 0)))
              else if script[0].response.latestSeq < replica.lastSeq then
                Err(RollbackDetected(replica.lastSeq, script[0].response.latestSeq))
              else if m < n then Err(Transport(Cause(script, m + 1)))
              else if !PulledAt(script, n + 1) then Err(Transport(Cause(script, n + 1)))
              else if script[n + 1].response.latestSeq < script[0].response.latestSeq then
                Err(RollbackDetected(script[0].response.latestSeq, script[n + 1].response.latestSeq))
              else Ok(end.report)
  {
    var start := Begin(replica);
    Unroll(start, script);
    if FirstPullHolds(replica, script) {
      PushPhaseOutcome(Deliver(start, script[0]), script[1..], script[0].response.latestSeq);
      assert forall k | 0 <= k < |script[1..]| :: script[1..][k] == script[k + 1];
    }
  }

  function PushesOf(ops: seq<PendingOp>): seq<Request> {
    seq(|ops|, k requires 0 <= k < |ops| => AskPush(ops[k]))
  }

  /** The requests behind a first pull when the first `m` ops got their ruling: the ops in order, up
      to the first without one, or all of them and one pull from where the first ended. */
  function SentAfter(queue: seq<PendingOp>, m: nat, pulled: int): seq<Request>
    requires m <= |queue|
  {
    if m < |queue| then PushesOf(queue[..m + 1]) else PushesOf(queue) + [AskPull(pulled)]
  }

  lemma SentStep(queue: seq<PendingOp>, m: nat, pulled: int)
    requires 0 < m <= |queue|
    ensures SentAfter(queue, m, pulled) == [AskPush(queue[0])] + SentAfter(queue[1..], m - 1, pulled)
  {
    if m < |queue| {
      assert queue[..m + 1] == [queue[0]] + queue[1..][..m];
    } else {
      assert PushesOf(queue) == [AskPush(queue[0])] + PushesOf(queue[1..]);
    }
  }

  lemma AsksOnce(run: Run, script: seq<Answer>, pulled: int)
    requires PastPull(run, pulled) && Rulings(script, |run.replica.queue|) == []
    ensures Requests(run, script) == SentAfter(run.replica.queue, 0, pulled)
  {
    Unroll(run, script);
    if run.replica.queue != [] {
      assert run.replica.queue[..1] == [run.replica.queue[0]];
    }
  }

  lemma {:induction false} PushPhaseRequests(run: Run, script: seq<Answer>, pulled: int)
    requires PastPull(run, pulled)
    ensures var queue := run.replica.queue;
            Requests(run, script) == SentAfter(queue, |Rulings(script, |queue|)|, pulled)
    decreases |script|
  {
    var queue := run.replica.queue;
    if Rulings(script, |queue|) == [] {
      AsksOnce(run, script, pulled);
    } else {
      RulingStep(run, script, pulled);
      PushPhaseRequests(Deliver(run, script[0]), script[1..], pulled);
      SentStep(queue, |Rulings(script, |queue|)|, pulled);
    }
  }

  /** What a sync sends, for every server. */
  lemma RequestsExactly(replica: Replica, script: seq<Answer>)
    ensures Requests(Begin(replica), script) ==
            [AskPull(replica.lastSeq)]
            + if !FirstPullHolds(replica, script) then []
              else SentAfter(replica.queue, |SyncRulings(replica, script)|, script[0].response.latestSeq)
  {
    var start := Begin(replica);
    Unroll(start, script);
    if FirstPullHolds(replica, script) {
      PushPhaseRequests(Deliver(start, script[0]), script[1..], script[0].response.latestSeq);
    }
  }

  lemma {:induction false} PushPhaseKeepsCounts(run: Run, script: seq<Answer>, pulled: int)
    requires PastPull(run, pulled)
    ensures var end := Drive(run, script);
            end.report.pulled == run.report.pulled && end.report.didFullResync == run.report.didFullResync
    decreases |script|
  {
    if run.replica.queue == [] || Rulings(script, |run.replica.queue|) == [] {
      Unroll(run, script);
    } else {
      PushPhaseKeepsCounts(Deliver(run, script[0]), script[1..], pulled);
    }
  }

  /** The places of the pulled items that no queued op keeps back. */
  function CleanPlaces(pulled: seq<RemoteItem>, dirty: set<ItemId>): set<nat> {
    set k: nat | k < |pulled| && pulled[k].itemId !in dirty
  }

  lemma {:induction false} CountsCleanPlaces(pulled: seq<RemoteItem>, dirty: set<ItemId>)
    ensures CountClean(pulled, dirty) == |CleanPlaces(pulled, dirty)|
  {
    if pulled != [] {
      var last := |pulled| - 1;
      CountsCleanPlaces(pulled[..last], dirty);
      assert CleanPlaces(pulled, dirty) ==
             CleanPlaces(pulled[..last], dirty) + if pulled[last].itemId in dirty then {} else {last};
    }
  }

  /** What a report says of the first pull: whether it was a full resync, and how many of its items
      no queued op kept back. */
  lemma ReportsFirstPull(replica: Replica, script: seq<Answer>)
    requires FirstPullHolds(replica, script)
    ensures var report, first := Drive(Begin(replica), script).report, script[0].response;
            && report.didFullResync == first.fullResync
            && report.pulled == |CleanPlaces(first.items, Queued(replica.queue))|
  {
    Unroll(Begin(replica), script);
    CountsCleanPlaces(script[0].response.items, Queued(replica.queue));
    PushPhaseKeepsCounts(Deliver(Begin(replica), script[0]), script[1..], script[0].response.latestSeq);
  }
}
