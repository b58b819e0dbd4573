/** What a protected sync guarantees against a server that may answer anything. */
module RollbackSafety {
  import opened Wrappers
  import opened SyncTypes
  import opened MemoryVault
  import opened Engine
  import opened EngineSafety
  import opened Rollback

  /** The checkpoint step lets the sync go on: nothing stored, or an authentic checkpoint that
      is not below the device's cursor. */
  predicate CheckpointHolds(key: VaultKey, replica: Replica, script: seq<Answer>) {
    script != [] && script[0].CheckpointIs? &&
    (script[0].stored.Some? ==>
       Verifies(key, script[0].stored.value) && script[0].stored.value.seqNo >= replica.lastSeq)
  }

  function Floor(script: seq<Answer>): int
    requires script != [] && script[0].CheckpointIs?
  {
    if script[0].stored.Some? then script[0].stored.value.seqNo else 0
  }

  /** Past an acceptable checkpoint, a protected sync is the engine's sync and two more checks. */
  lemma AfterCheckpoint(key: VaultKey, replica: Replica, script: seq<Answer>)
    requires CheckpointHolds(key, replica, script)
    ensures var run := Drive(Begin(replica), script[1..]);
            Protect(key, Checking(replica), script)
            == Protect(key, Conclude(key, Floor(script), run), Rest(Begin(replica), script[1..]))
    ensures Traffic(key, Checking(replica), script)
            == [AskCheckpoint] + Requests(Begin(replica), script[1..])
               + Traffic(key, Conclude(key, Floor(script), Drive(Begin(replica), script[1..])),
                         Rest(Begin(replica), script[1..]))
  {
    EngineWithin(key, Floor(script), Begin(replica), script[1..]);
  }

  /** Publishing is best effort: however the server takes it, the sync still succeeds. */
  lemma Closing(key: VaultKey, verified: int, run: Run, rest: seq<Answer>)
    requires run.progress.Finished?
    ensures var end := Protect(key, Conclude(key, verified, run), rest);
            && end.replica == run.replica
            && (match run.progress.outcome
                case Err(error) => end.result == Err(InEngine(error))
                case Ok(report) =>
                  end.result == if verified > run.replica.lastSeq
                                then Err(Withholding(verified, run.replica.lastSeq)) else Ok(report))
    ensures Traffic(key, Conclude(key, verified, run), rest) ==
            if run.progress.outcome.Ok? && run.replica.lastSeq > verified
            then [Publish(Sealed(key, run.replica.lastSeq))] else []
  {
  }

  /** A refused checkpoint ends the sync with nothing touched and nothing more sent. */
  lemma RefusedCheckpoint(key: VaultKey, replica: Replica, script: seq<Answer>)
    requires !CheckpointHolds(key, replica, script)
    ensures var end := Protect(key, Checking(replica), script);
            && end.replica == replica
            && end.result.Err?
            && (script != [] && script[0].CheckpointIs? ==>
                end.result == Err(if !Verifies(key, script[0].stored.value) then CheckpointForged
                                  else InEngine(RollbackDetected(replica.lastSeq, script[0].stored.value.seqNo))))
            && Traffic(key, Checking(replica), script) == [AskCheckpoint]
  {
  }

  /** For every server: the cursor never moves back; a forged checkpoint, one below the cursor,
      and a failed or regressing first pull leave items, queue and cursor as they were; success
      means the cursor reached the old floor, the first pull and the verified checkpoint; and
      the sync ends in a withholding alarm exactly when the engine succeeded short of it. */
  lemma ProtectedSyncIsSafe(key: VaultKey, replica: Replica, script: seq<Answer>)
    ensures var end := Protect(key, Checking(replica), script);
            && end.replica.lastSeq >= replica.lastSeq
            && (!CheckpointHolds(key, replica, script) || !FirstPullHolds(replica, script[1..]) ==>
                end.replica == replica && end.result.Err?)
            && (end.result.Ok? ==>
                && CheckpointHolds(key, replica, script)
                && FirstPullHolds(replica, script[1..])
                && end.replica.lastSeq >= Floor(script)
                && end.replica.lastSeq >= script[1].response.latestSeq >= replica.lastSeq
                && end.replica.queue == [])
            && (forall checkpoint, served :: end.result == Err(Withholding(checkpoint, served)) <==>
                  && CheckpointHolds(key, replica, script)
                  && checkpoint == Floor(script) > served == end.replica.lastSeq
                  && Drive(Begin(replica), script[1..]).progress.outcome.Ok?)
  {
    if CheckpointHolds(key, replica, script) {
      var rest := script[1..];
      AfterCheckpoint(key, replica, script);
      Closing(key, Floor(script), Drive(Begin(replica), rest), Rest(Begin(replica), rest));
      CursorIsSafe(replica, rest);
      OpsAreConserved(replica, rest);
    } else {
      RefusedCheckpoint(key, replica, script);
    }
  }

  /** The last request of a successful sync publishes the new cursor, sealed under the vault
      key, exactly when the cursor passed the checkpoint that was stored. */
  lemma PublishesWhatItReached(key: VaultKey, replica: Replica, script: seq<Answer>)
    requires Protect(key, Checking(replica), script).result.Ok?
    ensures CheckpointHolds(key, replica, script)
    ensures var end := Protect(key, Checking(replica), script);
            Traffic(key, Checking(replica), script) ==
            [AskCheckpoint] + Requests(Begin(replica), script[1..])
            + if end.replica.lastSeq > Floor(script) then [Publish(Sealed(key, end.replica.lastSeq))] else []
  {
    ProtectedSyncIsSafe(key, replica, script);
    AfterCheckpoint(key, replica, script);
    Closing(key, Floor(script), Drive(Begin(replica), script[1..]), Rest(Begin(replica), script[1..]));
  }

  /** Every alarm of a protected sync, for every server. Forgery is reported exactly for a stored
      checkpoint without the vault key's own tag for its number; a rollback exactly for an authentic
      checkpoint below the cursor, a first pull below the cursor or a tail pull below the first, with
      the two numbers. */
  lemma AlarmsOfAnyServer(key: VaultKey, replica: Replica, script: seq<Answer>, high: int, low: int)
    ensures var end := Protect(key, Checking(replica), script);
            var checked := script != [] && script[0].CheckpointIs? && script[0].stored.Some?;
            && (end.result == Err(CheckpointForged) <==>
                checked && script[0].stored.value.tag != Mac(key, script[0].stored.value.seqNo))
            && (end.result == Err(InEngine(RollbackDetected(high, low))) <==>
                || (checked && script[0].stored.value.tag == Mac(key, script[0].stored.value.seqNo)
                    && low == script[0].stored.value.seqNo < high == replica.lastSeq)
                || (CheckpointHolds(key, replica, script) && PulledAt(script, 1)
                    && low == script[1].response.latestSeq < high == replica.lastSeq)
                || (CheckpointHolds(key, replica, script) && FirstPullHolds(replica, script[1..])
                    && |SyncRulings(replica, script[1..])| == |replica.queue| && PulledAt(script, |replica.queue| + 2)
                    && low == script[|replica.queue| + 2].response.latestSeq < high == script[1].response.latestSeq))
  {
    if CheckpointHolds(key, replica, script) {
      var rest := script[1..];
      AfterCheckpoint(key, replica, script);
      Closing(key, Floor(script), Drive(Begin(replica), rest), Rest(Begin(replica), rest));
      OutcomeExactly(replica, rest);
      assert forall k | 0 <= k < |rest| :: rest[k] == script[k + 1];
    } else {
      RefusedCheckpoint(key, replica, script);
    }
  }
}
