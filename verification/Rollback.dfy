/** Rollback-protected sync (apps/desktop-core/src/rollback.rs): verify the stored checkpoint,
    run the engine, check for withholding, publish the new checkpoint. */
module Rollback {
  import opened Wrappers
  import opened SyncTypes
  import opened MemoryVault
  import opened Engine

  datatype SyncError =
    | InEngine(error: EngineError)
    | Api(cause: TransportError)
    | CheckpointForged
    | Withholding(checkpoint: int, served: int)

  /** Where a device stands between and during protected syncs. */
  datatype Cycle =
    | Resting(replica: Replica)
    | Checking(replica: Replica)
    | Syncing(verified: int, run: Run)
    | Publishing(replica: Replica, offered: Checkpoint, report: SyncReport)
    | Ended(replica: Replica, result: Result<SyncReport, SyncError>)
  {
    predicate Busy() {
      !Resting? && !Ended? && (Syncing? ==> run.Active())
    }

    function Held(): Replica {
      if Syncing? then run.replica else replica
    }
  }

  function Verifies(key: VaultKey, checkpoint: Checkpoint): bool {
    checkpoint.tag == Mac(key, checkpoint.seqNo)
  }

  function Sealed(key: VaultKey, seqNo: int): Checkpoint {
    Checkpoint(seqNo, Mac(key, seqNo))
  }

  function CycleAsks(cycle: Cycle): Request
    requires cycle.Busy()
  {
    match cycle
    case Checking(_) => AskCheckpoint
    case Syncing(_, run) => Asks(run)
    case Publishing(_, offered, _) => Publish(offered)
  }

  function AfterCheck(key: VaultKey, replica: Replica, stored: Option<Checkpoint>): Cycle {
    match stored
    case None => Syncing(0, Begin(replica))
    case Some(checkpoint) =>
      if !Verifies(key, checkpoint) then Ended(replica, Err(CheckpointForged))
      else if checkpoint.seqNo < replica.lastSeq then
        Ended(replica, Err(InEngine(RollbackDetected(replica.lastSeq, checkpoint.seqNo))))
      else Syncing(checkpoint.seqNo, Begin(replica))
  }

  /** What follows once the engine has moved: more engine, an error, or the last two checks. */
  function Conclude(key: VaultKey, verified: int, run: Run): Cycle {
    match run.progress
    case Finished(Err(error)) => Ended(run.replica, Err(InEngine(error)))
    case Finished(Ok(report)) =>
      var served := run.replica.lastSeq;
      if verified > served then Ended(run.replica, Err(Withholding(verified, served)))
      else if served > verified then Publishing(run.replica, Sealed(key, served), report)
      else Ended(run.replica, Ok(report))
    case _ => Syncing(verified, run)
  }

  function React(key: VaultKey, cycle: Cycle, answer: Answer): (next: Cycle)
    requires cycle.Busy()
    ensures next.Busy() || next.Ended?
  {
    match cycle
    case Checking(replica) =>
      (match answer
       case CheckpointIs(stored) => AfterCheck(key, replica, stored)
       case Failed(error) => Ended(replica, Err(Api(error)))
       case _ => Ended(replica, Err(Api(Rejected))))
    case Syncing(verified, run) => Conclude(key, verified, Deliver(run, answer))
    case Publishing(replica, _, report) => Ended(replica, Ok(report))
  }

  /** A whole protected sync against the answers in `script`. */
  function Protect(key: VaultKey, cycle: Cycle, script: seq<Answer>): (end: Cycle)
    requires cycle.Busy() || cycle.Ended?
    ensures end.Ended?
    decreases |script|, if cycle.Ended? then 0 else 1
  {
    if cycle.Ended? then cycle
    else if script == [] then React(key, cycle, Failed(Network))
    else Protect(key, React(key, cycle, script[0]), script[1..])
  }

  function Traffic(key: VaultKey, cycle: Cycle, script: seq<Answer>): seq<Request>
    requires cycle.Busy() || cycle.Ended?
    decreases |script|
  {
    if cycle.Ended? then []
    else if script == [] then [CycleAsks(cycle)]
    else [CycleAsks(cycle)] + Traffic(key, React(key, cycle, script[0]), script[1..])
  }

  /** While the engine runs, a protected sync is the engine's sync followed by the last checks. */
  lemma {:induction false} EngineWithin(key: VaultKey, verified: int, run: Run, script: seq<Answer>)
    requires run.Active()
    ensures var end := Conclude(key, verified, Drive(run, script));
            && Protect(key, Syncing(verified, run), script) == Protect(key, end, Rest(run, script))
            && Traffic(key, Syncing(verified, run), script)
               == Requests(run, script) + Traffic(key, end, Rest(run, script))
    decreases |script|
  {
    if script != [] {
      var next := Deliver(run, script[0]);
      if next.Active() {
        EngineWithin(key, verified, next, script[1..]);
      }
    }
  }

  lemma Turn(key: VaultKey, cycle: Cycle, script: seq<Answer>)
    requires cycle.Busy()
    ensures var next := React(key, cycle, Head(script));
            && Protect(key, cycle, script) == Protect(key, next, Tail(script))
            && Traffic(key, cycle, script) == [CycleAsks(cycle)] + Traffic(key, next, Tail(script))
  {
  }

  /** Step 1: fetch the stored checkpoint and verify it before anything else. */
  method VerifyStored(vault: Vault, transport: Transport, key: VaultKey)
    returns (verified: Result<int, SyncError>)
    modifies transport
    ensures transport.script == Tail(old(transport.script))
    ensures transport.sent == old(transport.sent) + [AskCheckpoint]
    ensures React(key, Checking(vault.State()), Head(old(transport.script))) ==
            match verified
            case Ok(seqNo) => Syncing(seqNo, Begin(vault.State()))
            case Err(error) => Ended(vault.State(), Err(error))
  {
    var answer := transport.Call(AskCheckpoint);
    match answer {
      case CheckpointIs(Some(stored)) =>
        if !Verifies(key, stored) {
          return Err(CheckpointForged);
        }
        if stored.seqNo < vault.lastSeq {
          return Err(InEngine(RollbackDetected(vault.lastSeq, stored.seqNo)));
        }
        return Ok(stored.seqNo);
      case CheckpointIs(None) => return Ok(0);
      case Failed(error) => return Err(Api(error));
      case _ => return Err(Api(Rejected));
    }
  }

  method Synchronize(vault: Vault, transport: Transport, key: VaultKey)
    returns (result: Result<SyncReport, SyncError>)
    modifies vault, transport
    ensures Protect(key, Checking(old(vault.State())), old(transport.script)) == Ended(vault.State(), result)
    ensures transport.sent ==
            old(transport.sent) + Traffic(key, Checking(old(vault.State())), old(transport.script))
  {
    Turn(key, Checking(vault.State()), transport.script);
    var checked := VerifyStored(vault, transport, key);
    if checked.Err? {
      return Err(checked.error);
    }
    var verified := checked.value;

    EngineWithin(key, verified, Begin(vault.State()), transport.script);
    var outcome := Sync(vault, transport);
    if outcome.Err? {
      return Err(InEngine(outcome.error));
    }
    var served := vault.lastSeq;
    if verified > served {
      return Err(Withholding(verified, served));
    }
    if served > verified {
      Turn(key, Publishing(vault.State(), Sealed(key, served), outcome.value), transport.script);
      var _ := transport.Call(Publish(Sealed(key, served)));
    }
    return Ok(outcome.value);
  }
}
