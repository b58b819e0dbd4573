/** The sync engine (core/vault-sync/src/engine.rs): pull, merge, push, tail pull.

    `Deliver` is one reaction of the engine to one transport answer, so a whole sync is a fold
    of `Deliver` over the answers (`Drive`). `Sync` is the loop the source has; it is proved to
    compute exactly that fold and to send exactly the requests the fold asks for. */
module Engine {
  import opened Wrappers
  import opened SyncTypes
  import opened MemoryVault

  /** Where a sync stands: what it is waiting for, or how it ended. */
  datatype Progress =
    | Pulling(floor: int)
    | Pushing(pulled: int)
    | Tailing(pulled: int)
    | Finished(outcome: Result<SyncReport, EngineError>)

  datatype Run = Run(replica: Replica, report: SyncReport, progress: Progress) {
    predicate Active() {
      !progress.Finished? && (progress.Pushing? ==> replica.queue != [])
    }
  }

  function Begin(replica: Replica): (run: Run)
    ensures run.Active()
  {
    Run(replica, EMPTY_REPORT, Pulling(replica.lastSeq))
  }

  /** The request a waiting engine has in flight. */
  function Asks(run: Run): Request
    requires run.Active()
  {
    match run.progress
    case Pulling(floor) => AskPull(floor)
    case Pushing(_) => AskPush(run.replica.queue[0])
    case Tailing(pulled) => AskPull(pulled)
  }

  /** Pulled items in order, skipping those with queued local changes. */
  function ApplyClean(items: map<ItemId, StoredItem>, pulled: seq<RemoteItem>, dirty: set<ItemId>)
    : map<ItemId, StoredItem>
  {
    if pulled == [] then items
    else
      var last := pulled[|pulled| - 1];
      var before := ApplyClean(items, pulled[..|pulled| - 1], dirty);
      if last.itemId in dirty then before else before[last.itemId := Stored(last)]
  }

  function CountClean(pulled: seq<RemoteItem>, dirty: set<ItemId>): nat {
    if pulled == [] then 0
    else
      CountClean(pulled[..|pulled| - 1], dirty)
      + if pulled[|pulled| - 1].itemId in dirty then 0 else 1
  }

  function Abort(run: Run, error: EngineError): Run {
    run.(progress := Finished(Err(error)))
  }

  /** With an empty queue the push phase is over at once. */
  function Settle(run: Run, pulled: int): Run {
    run.(progress := if run.replica.queue == [] then Tailing(pulled) else Pushing(pulled))
  }

  function AfterPull(run: Run, floor: int, pull: PullResponse): Run {
    if pull.latestSeq < floor then Abort(run, RollbackDetected(floor, pull.latestSeq))
    else
      var dirty := Queued(run.replica.queue);
      var base := if pull.fullResync then map[] else run.replica.items;
      var merged := run.(
        replica := run.replica.(items := ApplyClean(base, pull.items, dirty)),
        report := run.report.(
          didFullResync := pull.fullResync || run.report.didFullResync,
          pulled := run.report.pulled + CountClean(pull.items, dirty)));
      Settle(merged, pull.latestSeq)
  }

  /** The replica's items once the server has ruled on `op`. */
  function Ruled(items: map<ItemId, StoredItem>, op: PendingOp, outcome: PushOutcome)
    : map<ItemId, StoredItem>
  {
    var id := op.Item();
    match outcome
    case Accepted(revision, _) =>
      if id in items then items[items[id].itemId := items[id].(revision := revision)] else items
    case Conflict(Some(remote)) => items[remote.itemId := Stored(remote)]
    case Conflict(None) =>
      if id in items
      then items[items[id].itemId := StoredItem(items[id].itemId, items[id].revision, true, None)]
      else items
  }

  function AfterPush(run: Run, pulled: int, outcome: PushOutcome): Run
    requires run.replica.queue != []
  {
    var op := run.replica.queue[0];
    var report := if outcome.Accepted? then run.report.(pushed := run.report.pushed + 1)
                  else run.report.(conflicts := run.report.conflicts + [LostOp(op.Item(), op, outcome.current)]);
    var replica := run.replica.(items := Ruled(run.replica.items, op, outcome), queue := run.replica.queue[1..]);
    Settle(Run(replica, report, run.progress), pulled)
  }

  function AfterTail(run: Run, pulled: int, tail: PullResponse): Run {
    if tail.latestSeq < pulled then Abort(run, RollbackDetected(pulled, tail.latestSeq))
    else
      var replica := if tail.fullResync then run.replica.(lastSeq := pulled)
                     else run.replica.(items := ApplyClean(run.replica.items, tail.items, {}),
                                       lastSeq := tail.latestSeq);
      run.(replica := replica, progress := Finished(Ok(run.report)))
  }

  /** One reaction. An answer of the wrong shape does not decode and counts as rejected. */
  function Deliver(run: Run, answer: Answer): (next: Run)
    requires run.Active()
    ensures next.Active() || next.progress.Finished?
  {
    match (run.progress, answer)
    case (Pulling(floor), Pulled(pull)) => AfterPull(run, floor, pull)
    case (Pushing(pulled), Pushed(outcome)) => AfterPush(run, pulled, outcome)
    case (Tailing(pulled), Pulled(tail)) => AfterTail(run, pulled, tail)
    case (_, Failed(error)) => Abort(run, Transport(error))
    case _ => Abort(run, Transport(Rejected))
  }

  /** The next answer of a script; past its end the network is down. */
  function Head(script: seq<Answer>): Answer {
    if script == [] then Failed(Network) else script[0]
  }

  function Tail(script: seq<Answer>): seq<Answer> {
    if script == [] then [] else script[1..]
  }

  /** A whole sync against the answers in `script`. */
  function Drive(run: Run, script: seq<Answer>): (end: Run)
    requires run.Active() || run.progress.Finished?
    ensures end.progress.Finished?
    decreases |script|, if run.progress.Finished? then 0 else 1
  {
    if run.progress.Finished? then run
    else if script == [] then Deliver(run, Failed(Network))
    else Drive(Deliver(run, script[0]), script[1..])
  }

  /** The requests that sync sends, in order. */
  function Requests(run: Run, script: seq<Answer>): seq<Request>
    requires run.Active() || run.progress.Finished?
    decreases |script|
  {
    if run.progress.Finished? then []
    else if script == [] then [Asks(run)]
    else [Asks(run)] + Requests(Deliver(run, script[0]), script[1..])
  }

  /** What is left of the script once the sync has ended. */
  function Rest(run: Run, script: seq<Answer>): seq<Answer>
    requires run.Active() || run.progress.Finished?
    decreases |script|
  {
    if run.progress.Finished? || script == [] then script
    else Rest(Deliver(run, script[0]), script[1..])
  }

  /** A transport that answers from a script, whatever the script says, and records what it
      was asked. */
  class Transport {
    var script: seq<Answer>
    var sent: seq<Request>

    constructor (script: seq<Answer>)
      ensures this.script == script && sent == []
    {
      this.script, sent := script, [];
    }

    method Call(request: Request) returns (answer: Answer)
      modifies this
      ensures answer == Head(old(script)) && script == Tail(old(script))
      ensures sent == old(sent) + [request]
    {
      sent := sent + [request];
      if script == [] {
        return Failed(Network);
      }
      answer, script := script[0], script[1..];
    }

    method Pull(since: int) returns (response: Result<PullResponse, TransportError>)
      modifies this
      ensures script == Tail(old(script)) && sent == old(sent) + [AskPull(since)]
      ensures response == match Head(old(script))
                          case Pulled(pull) => Ok(pull)
                          case Failed(error) => Err(error)
                          case _ => Err(Rejected)
    {
      var answer := Call(AskPull(since));
      match answer {
        case Pulled(pull) => response := Ok(pull);
        case Failed(error) => response := Err(error);
        case _ => response := Err(Rejected);
      }
    }

    method Push(op: PendingOp) returns (outcome: Result<PushOutcome, TransportError>)
      modifies this
      ensures script == Tail(old(script)) && sent == old(sent) + [AskPush(op)]
      ensures outcome == match Head(old(script))
                         case Pushed(ruling) => Ok(ruling)
                         case Failed(error) => Err(error)
                         case _ => Err(Rejected)
    {
      var answer := Call(AskPush(op));
      match answer {
        case Pushed(ruling) => outcome := Ok(ruling);
        case Failed(error) => outcome := Err(error);
        case _ => outcome := Err(Rejected);
      }
    }
  }

  method MergePulled(vault: Vault, pulled: seq<RemoteItem>, dirty: set<ItemId>) returns (count: nat)
    modifies vault`items
    ensures vault.State() == old(vault.State()).(items := ApplyClean(old(vault.items), pulled, dirty))
    ensures count == CountClean(pulled, dirty)
  {
    count := 0;
    for i := 0 to |pulled|
      invariant vault.items == ApplyClean(old(vault.items), pulled[..i], dirty)
      invariant count == CountClean(pulled[..i], dirty)
    {
      assert pulled[..i + 1][..i] == pulled[..i];
      if pulled[i].itemId in dirty {
        continue;
      }
      vault.ApplyRemote(pulled[i]);
      count := count + 1;
    }
    assert pulled[..|pulled|] == pulled;
  }

  /** Reflects the server's ruling on the front op and pops it. */
  method Settled(vault: Vault, op: PendingOp, outcome: PushOutcome, report: SyncReport)
    returns (next: SyncReport)
    requires vault.queue != [] && vault.queue[0] == op
    modifies vault
    ensures vault.State() == old(vault.State()).(
                               items := Ruled(old(vault.items), op, outcome),
                               queue := old(vault.queue)[1..])
    ensures next == if outcome.Accepted? then report.(pushed := report.pushed + 1)
                    else report.(conflicts := report.conflicts + [LostOp(op.Item(), op, outcome.current)])
  {
    next := report;
    match outcome {
      case Accepted(revision, seqNo) =>
        next := next.(pushed := next.pushed + 1);
        var held := vault.Get(op.Item());
        if held.Some? {
          var item := held.value;
          vault.ApplyRemote(RemoteItem(item.itemId, revision, seqNo, item.deleted, item.content));
        }
      case Conflict(current) =>
        match current {
          case Some(remote) => vault.ApplyRemote(remote);
          case None =>
            var held := vault.Get(op.Item());
            if held.Some? {
              var item := held.value;
              vault.ApplyRemote(RemoteItem(item.itemId, item.revision, vault.lastSeq, true, None));
            }
        }
        next := next.(conflicts := next.conflicts + [LostOp(op.Item(), op, current)]);
    }
    vault.PopFrontOp();
  }

  /** Running a script answers the pending request with its head, then runs the rest. */
  lemma Unroll(run: Run, script: seq<Answer>)
    requires run.Active()
    ensures var next := Deliver(run, Head(script));
            Drive(run, script) == Drive(next, Tail(script))
            && Requests(run, script) == [Asks(run)] + Requests(next, Tail(script))
            && Rest(run, script) == Rest(next, Tail(script))
  {
  }

  /** What a sync from `start` over `script` comes to is what `run` over `rest` comes to, after
      the requests in `sent`. */
  ghost predicate Underway(start: Run, script: seq<Answer>, sent: seq<Request>, run: Run, rest: seq<Answer>)
  {
    (start.Active() || start.progress.Finished?)
    && (run.Active() || run.progress.Finished?)
    && Drive(start, script) == Drive(run, rest)
    && Requests(start, script) == sent + Requests(run, rest)
    && Rest(start, script) == Rest(run, rest)
  }

  lemma Advance(start: Run, script: seq<Answer>, sent: seq<Request>, run: Run, rest: seq<Answer>)
    requires Underway(start, script, sent, run, rest) && run.Active()
    ensures Underway(start, script, sent + [Asks(run)], Deliver(run, Head(rest)), Tail(rest))
  {
    Unroll(run, rest);
  }

  /** The push loop: ops leave the queue in order, each only after the server has ruled on it. */
  method PushQueue(vault: Vault, transport: Transport, report: SyncReport, pulled: int)
    returns (answer: Result<SyncReport, TransportError>, ghost sent: seq<Request>)
    modifies vault, transport
    ensures transport.sent == old(transport.sent) + sent
    ensures var start := Settle(Run(old(vault.State()), report, Tailing(pulled)), pulled);
            match answer
            case Ok(grown) =>
              vault.queue == []
              && Underway(start, old(transport.script), sent,
                          Run(vault.State(), grown, Tailing(pulled)), transport.script)
            case Err(error) =>
              exists grown ::
                Underway(start, old(transport.script), sent,
                         Run(vault.State(), grown, Finished(Err(Transport(error)))), transport.script)
  {
    ghost var start, script := Settle(Run(vault.State(), report, Tailing(pulled)), pulled), transport.script;
    ghost var run := start;
    var grown := report;
    sent := [];
    while vault.queue != []
      invariant run == Settle(Run(vault.State(), grown, Tailing(pulled)), pulled)
      invariant Underway(start, script, sent, run, transport.script)
      invariant transport.sent == old(transport.sent) + sent
      decreases |vault.queue|
    {
      var op := vault.queue[0];
      Advance(start, script, sent, run, transport.script);
      sent := sent + [Asks(run)];
      run := Deliver(run, Head(transport.script));
      var ruling := transport.Push(op);
      if ruling.Err? {
        assert run == Run(vault.State(), grown, Finished(Err(Transport(ruling.error))));
        return Err(ruling.error), sent;
      }
      grown := Settled(vault, op, ruling.value, grown);
    }
    return Ok(grown), sent;
  }

  /** The tail pull, which alone moves the cursor. */
  method PullTail(vault: Vault, transport: Transport, report: SyncReport, pulled: int)
    returns (outcome: Result<SyncReport, EngineError>)
    modifies vault, transport
    ensures transport.sent == old(transport.sent) + [AskPull(pulled)]
    ensures transport.script == Tail(old(transport.script))
    ensures var end := Deliver(Run(old(vault.State()), report, Tailing(pulled)), Head(old(transport.script)));
            end == Run(vault.State(), report, Finished(outcome))
  {
    var last := transport.Pull(pulled);
    if last.Err? {
      return Err(Transport(last.error));
    }
    var tail := last.value;
    if tail.latestSeq < pulled {
      return Err(RollbackDetected(pulled, tail.latestSeq));
    }
    if !tail.fullResync {
      var _ := MergePulled(vault, tail.items, {});
      vault.SetLastSeq(tail.latestSeq);
    } else {
      vault.SetLastSeq(pulled);
    }
    return Ok(report);
  }

  /** The first pull and its merge, up to the push loop. */
  method PullFirst(vault: Vault, transport: Transport)
    returns (outcome: Result<(SyncReport, int), EngineError>)
    modifies vault, transport
    ensures transport.sent == old(transport.sent) + [AskPull(old(vault.lastSeq))]
    ensures transport.script == Tail(old(transport.script))
    ensures Deliver(Begin(old(vault.State())), Head(old(transport.script))) ==
            match outcome
            case Ok((report, pulled)) => Settle(Run(vault.State(), report, Tailing(pulled)), pulled)
            case Err(error) => Run(vault.State(), EMPTY_REPORT, Finished(Err(error)))
  {
    var report := EMPTY_REPORT;
    var floor := vault.lastSeq;
    var first := transport.Pull(floor);
    if first.Err? {
      return Err(Transport(first.error));
    }
    var pull := first.value;
    if pull.latestSeq < floor {
      return Err(RollbackDetected(floor, pull.latestSeq));
    }
    if pull.fullResync {
      vault.ClearItems();
      report := report.(didFullResync := true);
    }
    var count := MergePulled(vault, pull.items, Queued(vault.queue));
    report := report.(pulled := report.pulled + count);
    return Ok((report, pull.latestSeq));
  }

  method Sync(vault: Vault, transport: Transport) returns (outcome: Result<SyncReport, EngineError>)
    modifies vault, transport
    ensures var end := Drive(Begin(old(vault.State())), old(transport.script));
            vault.State() == end.replica && end.progress == Finished(outcome)
    ensures transport.sent == old(transport.sent) + Requests(Begin(old(vault.State())), old(transport.script))
    ensures transport.script == Rest(Begin(old(vault.State())), old(transport.script))
  {
    ghost var start, script := Begin(vault.State()), transport.script;
    Unroll(start, script);
    var first := PullFirst(vault, transport);
    if first.Err? {
      return Err(first.error);
    }
    var (report, pulled) := first.value;
    var pushed, sent := PushQueue(vault, transport, report, pulled);
    if pushed.Err? {
      return Err(Transport(pushed.error));
    }
    Unroll(Run(vault.State(), pushed.value, Tailing(pulled)), transport.script);
    outcome := PullTail(vault, transport, pushed.value, pulled);
  }
}
