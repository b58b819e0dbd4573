/** When a protected sync raises an alarm against an honest server and one vault key: only at the
    checkpoint answer, exactly when what is stored is below the device's cursor, and only after a
    publish of that device was lost on its way. */
module FalseAlarm {
  import opened SyncTypes
  import opened Engine
  import opened Rollback
  import opened ItemServer
  import opened Ledger
  import opened SyncSystem

  /** The stored checkpoint's sequence number, 0 when there is none. */
  function Vouched(store: Store): int {
    if store.checkpoint.Some? then store.checkpoint.value.seqNo else 0
  }

  predicate CheckpointRight(key: VaultKey, store: Store) {
    store.checkpoint.Some? ==> Verifies(key, store.checkpoint.value) && 0 <= Vouched(store) <= store.syncSeq
  }

  predicate Alarms(cycle: Cycle) {
    cycle.Ended? && cycle.result.Err? &&
    match cycle.result.error
    case CheckpointForged => true
    case Withholding(_, _) => true
    case InEngine(RollbackDetected(_, _)) => true
    case _ => false
  }

  // ---- What every run keeps, publishes lost or not

  /** A running sync stays between the checkpoint it verified and the server's counter; what is
      published is the cursor, sealed. */
  predicate Guarded(key: VaultKey, store: Store, cycle: Cycle) {
    && InStep(store, cycle)
    && (cycle.Publishing? ==> cycle.offered == Sealed(key, cycle.replica.lastSeq))
    && (cycle.Syncing? ==>
          && 0 <= cycle.verified <= Vouched(store)
          && (cycle.run.progress.Pushing? ==> cycle.verified <= cycle.run.progress.pulled)
          && (cycle.run.progress.Tailing? ==> cycle.verified <= cycle.run.progress.pulled))
  }

  ghost predicate AllGuarded(key: VaultKey, s: System) {
    && Valid(s.world)
    && CheckpointRight(key, s.world.store)
    && forall dev | dev in s.devices :: Guarded(key, s.world.store, s.devices[dev].cycle)
  }

  predicate Rises(before: Store, after: Store) {
    Vouched(before) <= Vouched(after) && before.syncSeq <= after.syncSeq
  }

  lemma GuardedRises(key: VaultKey, before: Store, after: Store, cycle: Cycle)
    requires Guarded(key, before, cycle) && Rises(before, after)
    ensures Guarded(key, after, cycle)
  {
  }

  /** One request served: counter and checkpoint only rise, and the checkpoint stays right if what
      is published is sealed and not ahead of the server. */
  lemma CheckpointRises(key: VaultKey, world: World, request: Request, doomed: set<ItemId>, now: int,
                        answer: Answer, next: World)
    requires Serves(world, request, doomed, now, answer, next) && Valid(world) && CheckpointRight(key, world.store)
    requires request.Publish? ==>
               Verifies(key, request.checkpoint) && 0 <= request.checkpoint.seqNo <= world.store.syncSeq
    ensures CheckpointRight(key, next.store) && Rises(world.store, next.store)
    ensures request.Publish? ==> request.checkpoint.seqNo <= Vouched(next.store)
    ensures request == AskCheckpoint ==> next == world
  {
    if request.AskPush? {
      PushShape(world, request.op, now);
    }
  }

  lemma StoreRises(key: VaultKey, s: System, step: Step, s': System)
    requires AllGuarded(key, s) && Next(key, s, step, s')
    ensures CheckpointRight(key, s'.world.store) && Rises(s.world.store, s'.world.store)
  {
    if step.Exchange? || step.AnswerLost? {
      var cycle := s.devices[step.dev].cycle;
      assert Guarded(key, s.world.store, cycle);
      CheckpointRises(key, s.world, CycleAsks(cycle), step.doomed, step.now, step.answer, s'.world);
    }
  }

  /** The checkpoint answer: an alarm exactly if what is stored is below the cursor. */
  lemma CheckExactly(key: VaultKey, store: Store, cycle: Cycle)
    requires cycle.Checking? && Guarded(key, store, cycle) && CheckpointRight(key, store)
    ensures var next := React(key, cycle, CheckpointIs(store.checkpoint));
            && Guarded(key, store, next)
            && (Alarms(next) <==> store.checkpoint.Some? && store.checkpoint.value.seqNo < cycle.replica.lastSeq)
  {
  }

  /** No answer of the honest server makes the engine, or the checks behind it, raise an alarm. */
  lemma EngineIsQuiet(key: VaultKey, store: Store, cycle: Cycle, answer: Answer)
    requires cycle.Syncing? && Guarded(key, store, cycle) && CheckpointRight(key, store)
    requires Asks(cycle.run).AskPull? ==> answer.Pulled? && answer.response.latestSeq == store.syncSeq
    requires Asks(cycle.run).AskPush? ==> answer.Pushed? || answer.Failed?
    ensures Guarded(key, store, React(key, cycle, answer)) && !Alarms(React(key, cycle, answer))
  {
  }

  lemma CutOffIsQuiet(key: VaultKey, store: Store, cycle: Cycle, killed: bool)
    requires cycle.Busy() && Guarded(key, store, cycle)
    ensures Guarded(key, store, CutOff(key, cycle, killed)) && !Alarms(CutOff(key, cycle, killed))
  {
  }

  /** The answer of the honest server to a checkpoint request of `dev`, below its cursor. */
  ghost predicate ChecksBelow(s: System, step: Step, dev: DeviceId) {
    && step.Exchange? && step.dev == dev && dev in s.devices && s.devices[dev].cycle.Checking?
    && s.world.store.checkpoint.Some?
    && s.world.store.checkpoint.value.seqNo < s.devices[dev].Held().lastSeq
  }

  lemma MoverGuarded(key: VaultKey, s: System, step: Step, s': System)
    requires AllGuarded(key, s) && Next(key, s, step, s') && !step.Join?
    requires Guarded(key, s'.world.store, s.devices[step.dev].cycle) && CheckpointRight(key, s'.world.store)
    ensures Guarded(key, s'.world.store, s'.devices[step.dev].cycle)
    ensures Alarms(s'.devices[step.dev].cycle) <==> ChecksBelow(s, step, step.dev)
  {
    var cycle := s.devices[step.dev].cycle;
    match step {
      case Exchange(_, doomed, now, answer) =>
        AnswersFit(s.world, CycleAsks(cycle), doomed, now, answer, s'.world);
        if cycle.Checking? {
          CheckExactly(key, s.world.store, cycle);
        } else if cycle.Syncing? {
          EngineIsQuiet(key, s'.world.store, cycle, answer);
        }
      case AnswerLost(_, _, _, _, killed) => CutOffIsQuiet(key, s'.world.store, cycle, killed);
      case RequestLost(_, killed) => CutOffIsQuiet(key, s'.world.store, cycle, killed);
      case _ =>
    }
  }

  /** A device that did not move is guarded as before. */
  lemma StepGuarded(key: VaultKey, s: System, step: Step, s': System, dev: DeviceId)
    requires AllGuarded(key, s) && Next(key, s, step, s') && dev in s'.devices
    requires CheckpointRight(key, s'.world.store) && Rises(s.world.store, s'.world.store)
    ensures Guarded(key, s'.world.store, s'.devices[dev].cycle)
    ensures dev == step.dev ==> (Alarms(s'.devices[dev].cycle) <==> ChecksBelow(s, step, dev))
  {
    if dev in s.devices {
      GuardedRises(key, s.world.store, s'.world.store, s.devices[dev].cycle);
      if dev == step.dev {
        MoverGuarded(key, s, step, s');
      }
    } else {
      assert s'.world == s.world && Valid(s.world);
    }
  }

  lemma StepKeepsGuarded(key: VaultKey, s: System, step: Step, s': System)
    requires AllGuarded(key, s) && Next(key, s, step, s')
    ensures AllGuarded(key, s')
  {
    WorldKeeps(key, s, step, s');
    StoreRises(key, s, step, s');
    forall dev | dev in s'.devices
      ensures Guarded(key, s'.world.store, s'.devices[dev].cycle)
    {
      StepGuarded(key, s, step, s', dev);
    }
  }

  lemma StartsGuarded(key: VaultKey)
    ensures AllGuarded(key, System(NEW_WORLD, map[]))
  {
    NewWorldValid();
  }

  lemma GuardedNext(key: VaultKey, trace: seq<System>, steps: seq<Step>, i: nat)
    requires Execution(key, trace, steps) && 0 < i < |trace| && AllGuarded(key, trace[i - 1])
    ensures AllGuarded(key, trace[i])
  {
    assert StepAt(key, trace, steps, i - 1);
    StepKeepsGuarded(key, trace[i - 1], steps[i - 1], trace[i]);
  }

  lemma {:induction false} AlwaysGuarded(key: VaultKey, trace: seq<System>, steps: seq<Step>, i: nat)
    requires Execution(key, trace, steps) && i < |trace|
    ensures AllGuarded(key, trace[i])
  {
    if i == 0 {
      StartsGuarded(key);
    } else {
      AlwaysGuarded(key, trace, steps, i - 1);
      GuardedNext(key, trace, steps, i);
    }
  }

  lemma CheckpointAlwaysRight(key: VaultKey, trace: seq<System>, steps: seq<Step>, i: nat)
    requires Execution(key, trace, steps) && i < |trace|
    ensures CheckpointRight(key, trace[i].world.store)
  {
    AlwaysGuarded(key, trace, steps, i);
  }

  // ---- When there is an alarm

  /** Step `i` raises an alarm on device `dev` that was not up before. */
  predicate RaisesAlarm(s: System, s': System, dev: DeviceId) {
    && dev in s'.devices && Alarms(s'.devices[dev].cycle)
    && !(dev in s.devices && Alarms(s.devices[dev].cycle))
  }

  /** In every interleaving, publishes lost or not: a step raises an alarm on a device exactly if
      it answers that device's checkpoint request with a checkpoint below its cursor. */
  lemma AlarmsExactly(key: VaultKey, trace: seq<System>, steps: seq<Step>, i: nat, dev: DeviceId)
    requires Execution(key, trace, steps) && i < |steps|
    ensures RaisesAlarm(trace[i], trace[i + 1], dev) <==> ChecksBelow(trace[i], steps[i], dev)
  {
    AlwaysGuarded(key, trace, steps, i);
    assert StepAt(key, trace, steps, i);
    StoreRises(key, trace[i], steps[i], trace[i + 1]);
    if dev in trace[i + 1].devices {
      StepGuarded(key, trace[i], steps[i], trace[i + 1], dev);
    }
  }

  // ---- What makes a checkpoint fall behind a cursor

  /** A publish of `dev` never reaches the server. */
  ghost predicate LosesPublish(s: System, step: Step, dev: DeviceId) {
    step.RequestLost? && step.dev == dev && dev in s.devices && s.devices[dev].cycle.Publishing?
  }

  /** The stored checkpoint covers the cursor, except while that is being published. */
  predicate Covered(store: Store, cycle: Cycle) {
    cycle.Publishing? || cycle.Held().lastSeq <= Vouched(store)
  }

  lemma EngineCovered(key: VaultKey, store: Store, cycle: Cycle, answer: Answer)
    requires cycle.Syncing? && Guarded(key, store, cycle) && Covered(store, cycle)
    ensures Covered(store, React(key, cycle, answer))
  {
  }

  lemma StepCovers(key: VaultKey, s: System, step: Step, s': System, dev: DeviceId)
    requires AllGuarded(key, s) && Next(key, s, step, s') && Rises(s.world.store, s'.world.store)
    requires CheckpointRight(key, s'.world.store)
    requires dev in s'.devices && (dev in s.devices ==> Covered(s.world.store, s.devices[dev].cycle))
    requires !LosesPublish(s, step, dev)
    ensures Covered(s'.world.store, s'.devices[dev].cycle)
  {
    if dev in s.devices && dev == step.dev {
      var cycle := s.devices[dev].cycle;
      assert Guarded(key, s.world.store, cycle);
      GuardedRises(key, s.world.store, s'.world.store, cycle);
      match step {
        case Exchange(_, doomed, now, answer) =>
          CheckpointRises(key, s.world, CycleAsks(cycle), doomed, now, answer, s'.world);
          if cycle.Syncing? {
            EngineCovered(key, s'.world.store, cycle, answer);
          } else {
            OthersHold(key, cycle, answer);
          }
        case AnswerLost(_, doomed, now, answer, killed) =>
          CheckpointRises(key, s.world, CycleAsks(cycle), doomed, now, answer, s'.world);
          CutOffHolds(key, cycle, killed);
        case RequestLost(_, killed) => CutOffHolds(key, cycle, killed);
        case _ =>
      }
    }
  }

  lemma CoveredOnce(key: VaultKey, trace: seq<System>, steps: seq<Step>, k: nat, dev: DeviceId)
    requires Execution(key, trace, steps) && k < |steps| && dev in trace[k + 1].devices
    requires dev in trace[k].devices ==> Covered(trace[k].world.store, trace[k].devices[dev].cycle)
    requires !LosesPublish(trace[k], steps[k], dev)
    ensures Covered(trace[k + 1].world.store, trace[k + 1].devices[dev].cycle)
  {
    AlwaysGuarded(key, trace, steps, k);
    assert StepAt(key, trace, steps, k);
    StoreRises(key, trace[k], steps[k], trace[k + 1]);
    StepCovers(key, trace[k], steps[k], trace[k + 1], dev);
  }

  lemma {:induction false} AlwaysCovered(key: VaultKey, trace: seq<System>, steps: seq<Step>, i: nat, dev: DeviceId)
    requires Execution(key, trace, steps) && i < |trace| && dev in trace[i].devices
    requires forall k | 0 <= k < i :: !LosesPublish(trace[k], steps[k], dev)
    ensures Covered(trace[i].world.store, trace[i].devices[dev].cycle)
  {
    if i > 0 {
      if dev in trace[i - 1].devices {
        AlwaysCovered(key, trace, steps, i - 1, dev);
      }
      CoveredOnce(key, trace, steps, i - 1, dev);
    }
  }

  lemma NothingBelow(key: VaultKey, trace: seq<System>, steps: seq<Step>, i: nat, dev: DeviceId)
    requires Execution(key, trace, steps) && i < |steps|
    requires forall k | 0 <= k < i :: !LosesPublish(trace[k], steps[k], dev)
    ensures !RaisesAlarm(trace[i], trace[i + 1], dev)
  {
    AlarmsExactly(key, trace, steps, i, dev);
    if dev in trace[i].devices {
      AlwaysCovered(key, trace, steps, i, dev);
    }
  }

  /** No false alarm. In every interleaving of any number of devices, any cut-offs and any purges:
      a device none of whose publishes was lost before it reached the server is in no alarm, and
      its cursor is covered by the stored checkpoint. Answers to its publishes may be lost, and
      the other devices' publishes too. */
  lemma {:induction false} NoFalseAlarm(key: VaultKey, trace: seq<System>, steps: seq<Step>, i: nat, dev: DeviceId)
    requires Execution(key, trace, steps) && i < |trace| && dev in trace[i].devices
    requires forall k | 0 <= k < i :: !LosesPublish(trace[k], steps[k], dev)
    ensures !Alarms(trace[i].devices[dev].cycle)
    ensures Covered(trace[i].world.store, trace[i].devices[dev].cycle) && CheckpointRight(key, trace[i].world.store)
  {
    CheckpointAlwaysRight(key, trace, steps, i);
    AlwaysCovered(key, trace, steps, i, dev);
    if i > 0 {
      NothingBelow(key, trace, steps, i - 1, dev);
      if dev in trace[i - 1].devices {
        NoFalseAlarm(key, trace, steps, i - 1, dev);
      }
    }
  }

  /** So every alarm of an honest run comes after a lost publish of the same device. */
  lemma AlarmsNeedALostPublish(key: VaultKey, trace: seq<System>, steps: seq<Step>, i: nat, dev: DeviceId)
    requires Execution(key, trace, steps) && i < |steps| && RaisesAlarm(trace[i], trace[i + 1], dev)
    ensures exists k | 0 <= k < i :: LosesPublish(trace[k], steps[k], dev)
  {
    AlarmsExactly(key, trace, steps, i, dev);
    if forall k | 0 <= k < i :: !LosesPublish(trace[k], steps[k], dev) {
      AlwaysCovered(key, trace, steps, i, dev);
    }
  }
}
