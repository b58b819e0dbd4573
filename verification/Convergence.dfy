/** Devices converge: a sync that succeeds leaves the device showing exactly what the server
    holds, in every interleaving of any number of devices and any purges.

    Only the device's own past matters: while it staged no delete behind a queued op of the same
    item, and pulled from 0 without leftovers, the other devices may do anything. */
module Convergence {
  import opened Wrappers
  import opened SyncTypes
  import opened MemoryVault
  import opened Engine
  import opened Rollback
  import opened ItemServer
  import opened Ledger
  import opened Replication
  import opened SyncSystem

  /** Up to where the replica is right: the last pull of a running sync, else the cursor. */
  function Reached(cycle: Cycle): int {
    if cycle.Syncing? && (cycle.run.progress.Pushing? || cycle.run.progress.Tailing?)
    then cycle.run.progress.pulled
    else cycle.Held().lastSeq
  }

  /** No op of the same item is queued before op `k`, or behind it. */
  predicate First(queue: seq<PendingOp>, k: nat)
    requires k < |queue|
  {
    forall j | 0 <= j < k :: queue[j].Item() != queue[k].Item()
  }

  predicate Last(queue: seq<PendingOp>, k: nat)
    requires k < |queue|
  {
    forall j | k < j < |queue| :: queue[j].Item() != queue[k].Item()
  }

  /** A queued delete comes first of its item's ops, and while it is also the last the replica
      does not show the item. */
  predicate DeleteRight(items: Items, queue: seq<PendingOp>, k: nat)
    requires k < |queue|
  {
    queue[k].Delete? ==> First(queue, k) && (Last(queue, k) ==> !Live(items, queue[k].Item()))
  }

  ghost predicate DirtyRight(items: Items, queue: seq<PendingOp>, id: ItemId) {
    forall k | 0 <= k < |queue| && queue[k].Item() == id :: DeleteRight(items, queue, k)
  }

  ghost predicate ItemRight(items: Items, queue: seq<PendingOp>, world: World, reached: int, id: ItemId) {
    if id in Queued(queue) then DirtyRight(items, queue, id) else UpTo(items, world, reached, id)
  }

  ghost predicate ReplicaRight(world: World, replica: Replica, reached: int) {
    && OwnIds(replica.items)
    && forall id :: ItemRight(replica.items, replica.queue, world, reached, id)
  }

  ghost predicate DeviceRight(world: World, cycle: Cycle) {
    WellKept(world.store, cycle) && ReplicaRight(world, cycle.Held(), Reached(cycle))
  }

  // ---- The parts of a sync

  /** The same op of two queues: a delete right in one is right in the other. */
  lemma DeleteStaysRight(items: Items, queue: seq<PendingOp>, k: nat, items': Items, queue': seq<PendingOp>, k': nat)
    requires k < |queue| && k' < |queue'| && queue[k] == queue'[k'] && DeleteRight(items, queue, k)
    requires First(queue, k) ==> First(queue', k')
    requires Last(queue', k') ==> Last(queue, k)
    requires Live(items', queue[k].Item()) ==> Live(items, queue[k].Item())
    ensures DeleteRight(items', queue', k')
  {
  }

  /** The first pull brings every clean item to agreement and leaves the dirty ones alone. */
  lemma FirstPull(world: World, replica: Replica, since: int, response: PullResponse, id: ItemId)
    requires Valid(world) && 0 <= since <= world.store.syncSeq && IsDelta(world.store, since, response)
    requires ItemRight(replica.items, replica.queue, world, since, id)
    requires since == 0 && Live(replica.items, id) && id !in Queued(replica.queue) ==> id in world.store.rows
    ensures var merged := Merge(replica.items, response, Queued(replica.queue));
            && ItemRight(merged, replica.queue, world, response.latestSeq, id)
            && (id !in Queued(replica.queue) ==> Agrees(merged, world.store, id))
  {
    var dirty := Queued(replica.queue);
    if id in dirty {
      DirtyIsSkipped(replica.items, world.store, since, response, dirty, id);
      var merged := Merge(replica.items, response, dirty);
      forall k | 0 <= k < |replica.queue| && replica.queue[k].Item() == id
        ensures DeleteRight(merged, replica.queue, k)
      {
        DeleteStaysRight(replica.items, replica.queue, k, merged, replica.queue, k);
      }
    } else {
      DeltaSettles(replica.items, world, since, response, dirty, id);
      AgreesIsUpTo(Merge(replica.items, response, dirty), world, id);
    }
  }

  /** The ruling on an op leaves its item right up to the last pull, except that a delete answered
      as already done leaves a live item standing. */
  lemma RuledItemRight(world: World, items: Items, op: PendingOp, now: int, pulled: int)
    requires Valid(world) && pulled <= world.store.syncSeq && OwnIds(items)
    requires op.Delete? ==> !Live(items, op.Item())
    requires PushWorld(world, op, now).1.Pushed?
    ensures var (next, answer) := PushWorld(world, op, now);
            UpTo(Ruled(items, op, answer.outcome), next, pulled, op.Item())
  {
    PushShape(world, op, now);
  }

  /** The queue behind its front op, seen from an item. */
  lemma RestRight(items: Items, queue: seq<PendingOp>, id: ItemId)
    requires queue != [] && id in Queued(queue[1..]) && DirtyRight(items, queue, id)
    ensures id in Queued(queue)
    ensures if id == queue[0].Item()
            then forall k | 0 <= k < |queue[1..]| && queue[1..][k].Item() == id :: !queue[1..][k].Delete?
            else DirtyRight(items, queue[1..], id)
  {
    QueuedShrinks(queue);
    var rest := queue[1..];
    forall k | 0 <= k < |rest| && rest[k].Item() == id
      ensures if id == queue[0].Item() then !rest[k].Delete? else DeleteRight(items, rest, k)
    {
      assert DeleteRight(items, queue, k + 1) && rest[k] == queue[k + 1];
      if id == queue[0].Item() {
        assert !First(queue, k + 1);
      } else {
        assert forall j | 0 <= j < |rest| :: rest[j] == queue[j + 1];
        assert Last(rest, k) ==> Last(queue, k + 1);
      }
    }
  }

  lemma FrontDeleteIsHidden(items: Items, queue: seq<PendingOp>)
    requires queue != [] && DirtyRight(items, queue, queue[0].Item())
    requires queue[0].Delete? && queue[0].Item() !in Queued(queue[1..])
    ensures !Live(items, queue[0].Item())
  {
    assert DeleteRight(items, queue, 0);
    forall j | 0 < j < |queue| ensures queue[j].Item() != queue[0].Item() {
      assert queue[1..][j - 1] == queue[j];
    }
  }

  /** One push leaves every other item right. */
  lemma PushLeavesOthers(world: World, replica: Replica, now: int, pulled: int, id: ItemId, outcome: PushOutcome)
    requires Valid(world) && pulled <= world.store.syncSeq && OwnIds(replica.items)
    requires replica.queue != [] && id != replica.queue[0].Item()
    requires ItemRight(replica.items, replica.queue, world, pulled, id)
    requires outcome.Conflict? && outcome.current.Some? ==>
               outcome.current.value.itemId == replica.queue[0].Item()
    ensures var next := PushWorld(world, replica.queue[0], now).0;
            ItemRight(Ruled(replica.items, replica.queue[0], outcome), replica.queue[1..], next, pulled, id)
  {
    var op, rest := replica.queue[0], replica.queue[1..];
    var ruled := Ruled(replica.items, op, outcome);
    QueuedShrinks(replica.queue);
    RuledOthers(replica.items, op, outcome, id);
    if id !in Queued(rest) {
      PushKeepsUpTo(replica.items, world, pulled, id, op, now);
    } else {
      RestRight(replica.items, replica.queue, id);
      forall k | 0 <= k < |rest| && rest[k].Item() == id ensures DeleteRight(ruled, rest, k) {
        DeleteStaysRight(replica.items, rest, k, ruled, rest, k);
      }
    }
  }

  /** One push leaves every item right. */
  lemma OnePush(world: World, replica: Replica, now: int, pulled: int, id: ItemId)
    requires Valid(world) && pulled <= world.store.syncSeq && replica.queue != []
    requires ReplicaRight(world, replica, pulled)
    requires PushWorld(world, replica.queue[0], now).1.Pushed?
    ensures var (next, answer) := PushWorld(world, replica.queue[0], now);
            ItemRight(Ruled(replica.items, replica.queue[0], answer.outcome), replica.queue[1..], next, pulled, id)
  {
    var op, rest := replica.queue[0], replica.queue[1..];
    assert op.Item() in Queued(replica.queue);
    assert ItemRight(replica.items, replica.queue, world, pulled, op.Item());
    if id != op.Item() {
      RulingsAreItsOwn(world, op, now);
      assert ItemRight(replica.items, replica.queue, world, pulled, id);
      PushLeavesOthers(world, replica, now, pulled, id, PushWorld(world, op, now).1.outcome);
    } else if id in Queued(rest) {
      RestRight(replica.items, replica.queue, id);
    } else {
      if op.Delete? {
        FrontDeleteIsHidden(replica.items, replica.queue);
      }
      RuledItemRight(world, replica.items, op, now, pulled);
    }
  }

  /** The tail pull: a delta brings full agreement, a resync answer leaves the device behind the
      horizon. */
  lemma TailPull(world: World, run: Run, response: PullResponse)
    requires Valid(world) && run.progress.Tailing? && run.replica.queue == []
    requires 0 <= run.progress.pulled <= world.store.syncSeq
    requires IsDelta(world.store, run.progress.pulled, response)
    requires forall id :: UpTo(run.replica.items, world, run.progress.pulled, id)
    requires run.progress.pulled == 0 ==> forall id | Live(run.replica.items, id) :: id in world.store.rows
    ensures var next := AfterTail(run, run.progress.pulled, response);
            && next.progress == Finished(Ok(run.report))
            && next.replica.queue == []
            && (if response.fullResync
                then next.replica.items == run.replica.items
                     && next.replica.lastSeq == run.progress.pulled
                     && 0 < next.replica.lastSeq < world.store.purgedBefore
                else LiveItems(next.replica.items) == LiveRows(world.store)
                     && next.replica.lastSeq == world.store.syncSeq)
  {
    if !response.fullResync {
      var items := Merge(run.replica.items, response, {});
      forall id
        ensures Agrees(items, world.store, id)
      {
        DeltaSettles(run.replica.items, world, run.progress.pulled, response, {}, id);
      }
      AgreementIsSameView(items, world.store);
    }
  }

  // ---- One step of the system, for the device that moves

  /** Being right further is being right less far, so a sync may be abandoned. */
  lemma LessFar(world: World, replica: Replica, reached: int, lower: int)
    requires ReplicaRight(world, replica, reached) && lower <= reached
    ensures ReplicaRight(world, replica, lower)
  {
    forall id
      ensures ItemRight(replica.items, replica.queue, world, lower, id)
    {
      assert ItemRight(replica.items, replica.queue, world, reached, id);
    }
  }

  lemma PulledFirst(world: World, replica: Replica, since: int, response: PullResponse)
    requires Valid(world) && 0 <= since <= world.store.syncSeq && IsDelta(world.store, since, response)
    requires ReplicaRight(world, replica, since)
    requires since == 0 ==>
               forall id | Live(replica.items, id) && id !in Queued(replica.queue) :: id in world.store.rows
    ensures var merged := Merge(replica.items, response, Queued(replica.queue));
            ReplicaRight(world, replica.(items := merged), response.latestSeq)
  {
    var merged := Merge(replica.items, response, Queued(replica.queue));
    ApplyKeepsOwnIds(if response.fullResync then map[] else replica.items, response.items, Queued(replica.queue));
    forall id
      ensures ItemRight(merged, replica.queue, world, response.latestSeq, id)
    {
      assert ItemRight(replica.items, replica.queue, world, since, id);
      FirstPull(world, replica, since, response, id);
    }
  }

  lemma PushedOne(world: World, replica: Replica, now: int, pulled: int)
    requires Valid(world) && pulled <= world.store.syncSeq && replica.queue != []
    requires ReplicaRight(world, replica, pulled) && PushWorld(world, replica.queue[0], now).1.Pushed?
    ensures var (next, answer) := PushWorld(world, replica.queue[0], now);
            ReplicaRight(next, replica.(items := Ruled(replica.items, replica.queue[0], answer.outcome),
                                        queue := replica.queue[1..]), pulled)
  {
    var (next, answer) := PushWorld(world, replica.queue[0], now);
    var ruled, rest := Ruled(replica.items, replica.queue[0], answer.outcome), replica.queue[1..];
    forall id
      ensures ItemRight(ruled, rest, next, pulled, id)
    {
      OnePush(world, replica, now, pulled, id);
    }
  }

  lemma PulledTail(world: World, run: Run, response: PullResponse)
    requires Valid(world) && run.progress.Tailing? && run.replica.queue == []
    requires 0 <= run.progress.pulled <= world.store.syncSeq
    requires IsDelta(world.store, run.progress.pulled, response)
    requires ReplicaRight(world, run.replica, run.progress.pulled)
    requires run.progress.pulled == 0 ==> forall id | Live(run.replica.items, id) :: id in world.store.rows
    ensures var next := AfterTail(run, run.progress.pulled, response);
            ReplicaRight(world, next.replica, next.replica.lastSeq)
  {
    var next := AfterTail(run, run.progress.pulled, response);
    ApplyKeepsOwnIds(run.replica.items, response.items, {});
    forall id
      ensures UpTo(run.replica.items, world, run.progress.pulled, id)
    {
      assert ItemRight(run.replica.items, run.replica.queue, world, run.progress.pulled, id);
    }
    TailPull(world, run, response);
    if !response.fullResync {
      AgreementIsSameView(next.replica.items, world.store);
      forall id
        ensures ItemRight(next.replica.items, [], world, next.replica.lastSeq, id)
      {
        AgreesIsUpTo(next.replica.items, world, id);
      }
    }
  }

  lemma EngineStaysRight(key: VaultKey, s: System, step: Step, s': System)
    requires Next(key, s, step, s') && step.Exchange? && Valid(s.world) && Valid(s'.world)
    requires s.devices[step.dev].cycle.Syncing? && NoLeftovers(s, step, s')
    requires WellKept(s.world.store, s.devices[step.dev].cycle)
    requires WellKept(s'.world.store, s.devices[step.dev].cycle)
    requires ReplicaRight(s.world, s.devices[step.dev].Held(), Reached(s.devices[step.dev].cycle))
    requires ReplicaRight(s'.world, s.devices[step.dev].Held(), Reached(s.devices[step.dev].cycle))
    ensures var after := s'.devices[step.dev].cycle;
            after.Syncing? ==> ReplicaRight(s'.world, after.Held(), Reached(after))
    ensures var after := s'.devices[step.dev].cycle;
            ReplicaRight(s'.world, after.Held(), after.Held().lastSeq)
  {
    var cycle := s.devices[step.dev].cycle;
    var run := cycle.run;
    EngineHolds(key, cycle, step.answer);
    var next := Deliver(run, step.answer);
    match run.progress {
      case Pulling(floor) =>
        PulledFirst(s'.world, run.replica, floor, step.answer.response);
        LessFar(s'.world, next.replica, step.answer.response.latestSeq, next.replica.lastSeq);
      case Pushing(pulled) =>
        if step.answer.Pushed? {
          PushedOne(s.world, run.replica, step.now, pulled);
        }
        LessFar(s'.world, next.replica, pulled, next.replica.lastSeq);
      case Tailing(_) => PulledTail(s'.world, run, step.answer.response);
    }
  }

  /** What the server does leaves a replica right. */
  lemma Frame(key: VaultKey, s: System, step: Step, s': System, replica: Replica, reached: int)
    requires Next(key, s, step, s') && Valid(s.world) && reached <= s.world.store.syncSeq
    requires ReplicaRight(s.world, replica, reached)
    ensures ReplicaRight(s'.world, replica, reached)
  {
    forall id
      ensures ItemRight(replica.items, replica.queue, s'.world, reached, id)
    {
      assert ItemRight(replica.items, replica.queue, s.world, reached, id);
      if id !in Queued(replica.queue) {
        WorldKeepsUpTo(key, s, step, s', replica.items, reached, id);
      }
    }
  }

  lemma StagingItem(world: World, replica: Replica, op: PendingOp, reached: int, id: ItemId)
    requires ItemRight(replica.items, replica.queue, world, reached, id)
    requires op.Delete? ==> op.Item() !in Queued(replica.queue)
    ensures var staged := Stage(replica, op);
            ItemRight(staged.items, staged.queue, world, reached, id)
  {
    var staged := Stage(replica, op);
    QueuedGrows(replica.queue, op);
    if id in Queued(staged.queue) {
      forall k | 0 <= k < |staged.queue| && staged.queue[k].Item() == id
        ensures DeleteRight(staged.items, staged.queue, k)
      {
        if k < |replica.queue| {
          assert forall j | 0 <= j < |replica.queue| :: staged.queue[j] == replica.queue[j];
          assert staged.queue[|replica.queue|] == op && DeleteRight(replica.items, replica.queue, k);
          assert Last(staged.queue, k) ==> Last(replica.queue, k) && op.Item() != id;
        } else if op.Delete? {
          assert First(staged.queue, k) by {
            assert forall j | 0 <= j < k :: staged.queue[j] == replica.queue[j];
          }
        }
      }
    }
  }

  lemma Staging(world: World, replica: Replica, op: PendingOp, reached: int)
    requires ReplicaRight(world, replica, reached)
    requires op.Delete? ==> op.Item() !in Queued(replica.queue)
    ensures ReplicaRight(world, Stage(replica, op), reached)
  {
    forall id
      ensures ItemRight(Stage(replica, op).items, Stage(replica, op).queue, world, reached, id)
    {
      assert ItemRight(replica.items, replica.queue, world, reached, id);
      StagingItem(world, replica, op, reached, id);
    }
  }

  lemma Joining(world: World)
    requires Valid(world)
    ensures ReplicaRight(world, NEW_DEVICE.Held(), 0)
  {
    forall id
      ensures ItemRight(map[], [], world, 0, id)
    {
      assert id in world.store.rows ==> RowValid(id, world.store.rows[id], world.store.syncSeq);
    }
  }

  lemma Moves(key: VaultKey, s: System, step: Step, s': System)
    requires Next(key, s, step, s') && !step.Join? && Valid(s.world) && Valid(s'.world)
    requires DeletesAlone(s, step) && NoLeftovers(s, step, s')
    requires DeviceRight(s.world, s.devices[step.dev].cycle)
    requires WellKept(s'.world.store, s.devices[step.dev].cycle)
    requires ReplicaRight(s'.world, s.devices[step.dev].Held(), Reached(s.devices[step.dev].cycle))
    ensures var after := s'.devices[step.dev].cycle;
            ReplicaRight(s'.world, after.Held(), Reached(after))
  {
    var cycle := s.devices[step.dev].cycle;
    var replica := cycle.Held();
    LessFar(s'.world, replica, Reached(cycle), replica.lastSeq);
    match step {
      case StageOp(_, op) => Staging(s'.world, replica, op, replica.lastSeq);
      case StartSync(_) =>
      case Exchange(_, _, _, answer) =>
        if cycle.Syncing? {
          EngineStaysRight(key, s, step, s');
        } else {
          OthersHold(key, cycle, answer);
        }
      case AnswerLost(_, _, _, _, killed) => CutOffHolds(key, cycle, killed);
      case RequestLost(_, killed) => CutOffHolds(key, cycle, killed);
    }
  }

  /** One step of the system, for any one device: the others may do anything. */
  lemma StepKeepsRight(key: VaultKey, s: System, step: Step, s': System, dev: DeviceId)
    requires Next(key, s, step, s') && Valid(s.world) && dev in s'.devices
    requires dev in s.devices ==> DeviceRight(s.world, s.devices[dev].cycle)
    requires step.dev == dev ==> DeletesAlone(s, step) && NoLeftovers(s, step, s')
    ensures DeviceRight(s'.world, s'.devices[dev].cycle)
  {
    StepKeepsDevice(key, s, step, s', dev);
    WorldKeeps(key, s, step, s');
    if step.Join? && step.dev == dev {
      Joining(s'.world);
    } else {
      var cycle := s.devices[dev].cycle;
      Frame(key, s, step, s', cycle.Held(), Reached(cycle));
      if step.dev == dev {
        Moves(key, s, step, s');
      }
    }
  }

  // ---- Whole runs

  ghost predicate DisciplinedAt(trace: seq<System>, steps: seq<Step>, dev: DeviceId, k: nat)
    requires |trace| == |steps| + 1 && k < |steps|
  {
    steps[k].dev == dev ==> DeletesAlone(trace[k], steps[k]) && NoLeftovers(trace[k], steps[k], trace[k + 1])
  }

  /** Before step `n`, device `dev` staged no delete behind a queued op of its item, and its pulls
      from 0 found no leftovers. */
  ghost predicate Disciplined(trace: seq<System>, steps: seq<Step>, dev: DeviceId, n: nat)
    requires |trace| == |steps| + 1
  {
    forall k | 0 <= k < n && k < |steps| :: DisciplinedAt(trace, steps, dev, k)
  }

  lemma RightOnce(key: VaultKey, trace: seq<System>, steps: seq<Step>, k: nat, dev: DeviceId)
    requires Execution(key, trace, steps) && k < |steps| && dev in trace[k + 1].devices
    requires DisciplinedAt(trace, steps, dev, k)
    requires dev in trace[k].devices ==> DeviceRight(trace[k].world, trace[k].devices[dev].cycle)
    ensures DeviceRight(trace[k + 1].world, trace[k + 1].devices[dev].cycle)
  {
    WorldsValid(key, trace, steps, k);
    assert StepAt(key, trace, steps, k);
    StepKeepsRight(key, trace[k], steps[k], trace[k + 1], dev);
  }

  lemma {:induction false} AlwaysRight(key: VaultKey, trace: seq<System>, steps: seq<Step>, i: nat, dev: DeviceId)
    requires Execution(key, trace, steps) && i < |trace| && Disciplined(trace, steps, dev, i)
    requires dev in trace[i].devices
    ensures DeviceRight(trace[i].world, trace[i].devices[dev].cycle)
  {
    if i > 0 {
      if dev in trace[i - 1].devices {
        AlwaysRight(key, trace, steps, i - 1, dev);
      }
      assert DisciplinedAt(trace, steps, dev, i - 1);
      RightOnce(key, trace, steps, i - 1, dev);
    }
  }

  /** Step `i` is the one at which the engine of device `dev` succeeds. */
  ghost predicate SucceedsAt(s: System, step: Step, dev: DeviceId) {
    step.Exchange? && step.dev == dev && dev in s.devices && s.devices[dev].cycle.Syncing? &&
    var run := s.devices[dev].cycle.run;
    run.Active() && Deliver(run, step.answer).progress.Finished? && Deliver(run, step.answer).progress.outcome.Ok?
  }

  lemma SuccessIsATail(run: Run, answer: Answer)
    requires run.Active() && Deliver(run, answer).progress.Finished? && Deliver(run, answer).progress.outcome.Ok?
    ensures run.progress.Tailing? && answer.Pulled?
    ensures Deliver(run, answer) == AfterTail(run, run.progress.pulled, answer.response)
  {
  }

  lemma SuccessConverges(key: VaultKey, s: System, step: Step, s': System, dev: DeviceId)
    requires Valid(s.world) && dev in s.devices && DeviceRight(s.world, s.devices[dev].cycle)
    requires Next(key, s, step, s') && NoLeftovers(s, step, s') && SucceedsAt(s, step, dev)
    ensures var run := Deliver(s.devices[dev].cycle.run, step.answer);
            var replica, store := run.replica, s'.world.store;
            && step.answer.Pulled?
            && replica.queue == []
            && (if step.answer.response.fullResync
                then 0 < replica.lastSeq < store.purgedBefore
                else LiveItems(replica.items) == LiveRows(store) && replica.lastSeq == store.syncSeq)
  {
    var run := s.devices[dev].cycle.run;
    SuccessIsATail(run, step.answer);
    WorldKeeps(key, s, step, s');
    Frame(key, s, step, s', run.replica, run.progress.pulled);
    forall id
      ensures UpTo(run.replica.items, s'.world, run.progress.pulled, id)
    {
      assert ItemRight(run.replica.items, run.replica.queue, s'.world, run.progress.pulled, id);
    }
    TailPull(s'.world, run, step.answer.response);
  }

  /** Convergence. In every interleaving of any number of devices joining, staging, syncing and
      being cut off at any call, and of any purges: when the sync of a device disciplined so far
      succeeds its queue is empty, and unless its tail pull asked for a resync the device shows
      exactly the server's items at that instant and its cursor is the server's counter. If the
      tail pull did ask for a resync, the cursor is left behind the horizon. */
  lemma Converges(key: VaultKey, trace: seq<System>, steps: seq<Step>, i: nat, dev: DeviceId)
    requires Execution(key, trace, steps) && Disciplined(trace, steps, dev, i + 1)
    requires i < |steps| && SucceedsAt(trace[i], steps[i], dev)
    ensures dev in trace[i + 1].devices
    ensures var replica, store := trace[i + 1].devices[dev].Held(), trace[i + 1].world.store;
            && steps[i].answer.Pulled?
            && replica.queue == []
            && (if steps[i].answer.response.fullResync
                then 0 < replica.lastSeq < store.purgedBefore
                else LiveItems(replica.items) == LiveRows(store) && replica.lastSeq == store.syncSeq)
  {
    assert StepAt(key, trace, steps, i) && DisciplinedAt(trace, steps, dev, i);
    WorldsValid(key, trace, steps, i);
    AlwaysRight(key, trace, steps, i, dev);
    SuccessConverges(key, trace[i], steps[i], trace[i + 1], dev);
    EngineHolds(key, trace[i].devices[dev].cycle, steps[i].answer);
  }

  // ---- After a tail pull that asked for a resync

  /** The server answers a pull of device `dev`. */
  ghost predicate AnswersPull(s: System, step: Step, dev: DeviceId) {
    step.Exchange? && step.dev == dev && dev in s.devices && s.devices[dev].cycle.Syncing? &&
    var run := s.devices[dev].cycle.run;
    run.Active() && Asks(run).AskPull?
  }

  lemma OnlyPullsMoveTheCursor(key: VaultKey, s: System, step: Step, s': System, dev: DeviceId)
    requires Next(key, s, step, s') && dev in s.devices && !AnswersPull(s, step, dev)
    ensures dev in s'.devices && s'.devices[dev].Held().lastSeq == s.devices[dev].Held().lastSeq
  {
    if step.dev == dev {
      var cycle := s.devices[dev].cycle;
      match step {
        case AnswerLost(_, _, _, _, _) => CutOffHolds(key, cycle, step.killed);
        case RequestLost(_, _) => CutOffHolds(key, cycle, step.killed);
        case Exchange(_, _, _, _) =>
          if cycle.Syncing? {
            EngineHolds(key, cycle, step.answer);
          }
        case _ =>
      }
    }
  }

  lemma {:induction false} CursorRests(key: VaultKey, trace: seq<System>, steps: seq<Step>, i: nat, j: nat, dev: DeviceId)
    requires Execution(key, trace, steps) && i <= j < |trace| && dev in trace[i].devices
    requires forall k | i <= k < j :: !AnswersPull(trace[k], steps[k], dev)
    ensures dev in trace[j].devices && trace[j].devices[dev].Held().lastSeq == trace[i].devices[dev].Held().lastSeq
    ensures trace[i].world.store.purgedBefore <= trace[j].world.store.purgedBefore
  {
    if i < j {
      CursorRests(key, trace, steps, i, j - 1, dev);
      CursorRestsOnce(key, trace, steps, j - 1, dev);
    }
  }

  lemma CursorRestsOnce(key: VaultKey, trace: seq<System>, steps: seq<Step>, k: nat, dev: DeviceId)
    requires Execution(key, trace, steps) && k < |steps| && dev in trace[k].devices
    requires !AnswersPull(trace[k], steps[k], dev)
    ensures dev in trace[k + 1].devices
    ensures trace[k + 1].devices[dev].Held().lastSeq == trace[k].devices[dev].Held().lastSeq
    ensures trace[k].world.store.purgedBefore <= trace[k + 1].world.store.purgedBefore
  {
    WorldsValid(key, trace, steps, k);
    assert StepAt(key, trace, steps, k);
    WorldKeeps(key, trace[k], steps[k], trace[k + 1]);
    OnlyPullsMoveTheCursor(key, trace[k], steps[k], trace[k + 1], dev);
  }

  lemma BehindMeansResync(key: VaultKey, s: System, step: Step, s': System, dev: DeviceId)
    requires Valid(s.world) && Next(key, s, step, s') && AnswersPull(s, step, dev)
    requires s.devices[dev].cycle.run.progress.Pulling? && InStep(s.world.store, s.devices[dev].cycle)
    requires 0 < s.devices[dev].Held().lastSeq < s.world.store.purgedBefore
    ensures step.answer.Pulled? && step.answer.response.fullResync
  {
    WorldKeeps(key, s, step, s');
  }

  /** A success whose tail pull asked for a resync is made good by the device's next pull: the
      server answers it with its full state. */
  lemma NextPullRebuilds(key: VaultKey, trace: seq<System>, steps: seq<Step>, i: nat, j: nat, dev: DeviceId)
    requires Execution(key, trace, steps) && Disciplined(trace, steps, dev, i + 1) && i < j < |steps|
    requires SucceedsAt(trace[i], steps[i], dev) && steps[i].answer.Pulled? && steps[i].answer.response.fullResync
    requires forall k | i < k < j :: !AnswersPull(trace[k], steps[k], dev)
    requires AnswersPull(trace[j], steps[j], dev) && trace[j].devices[dev].cycle.run.progress.Pulling?
    ensures steps[j].answer.Pulled? && steps[j].answer.response.fullResync
  {
    Converges(key, trace, steps, i, dev);
    CursorRests(key, trace, steps, i + 1, j, dev);
    WorldsValid(key, trace, steps, j);
    AlwaysWellKept(key, trace, steps, j, dev);
    assert StepAt(key, trace, steps, j);
    BehindMeansResync(key, trace[j], steps[j], trace[j + 1], dev);
  }

  // ---- When the side condition on cursor 0 holds

  /** Leftovers need a purge: a device holding only staged items has none, and while the server
      has never purged anything no device that is right has any. */
  lemma LeftoversNeedAPurge(key: VaultKey, s: System, step: Step, s': System)
    requires Valid(s.world) && Next(key, s, step, s')
    requires step.dev in s.devices ==>
               || s.devices[step.dev].Held().items.Keys <= Queued(s.devices[step.dev].Held().queue)
               || (s'.world.store.purgedBefore == 0 && DeviceRight(s.world, s.devices[step.dev].cycle))
    ensures NoLeftovers(s, step, s')
  {
    if step.Exchange? && !(s.devices[step.dev].Held().items.Keys <= Queued(s.devices[step.dev].Held().queue)) {
      var cycle := s.devices[step.dev].cycle;
      WorldKeeps(key, s, step, s');
      Frame(key, s, step, s', cycle.Held(), Reached(cycle));
      forall id | Live(cycle.Held().items, id) && id !in Queued(cycle.Held().queue)
        ensures id in s'.world.store.rows
      {
        assert ItemRight(cycle.Held().items, cycle.Held().queue, s'.world, Reached(cycle), id);
      }
    }
  }
}
