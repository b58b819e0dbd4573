/** Any number of devices of one account, each running protected syncs against the honest
    server, in every interleaving.

    A transport call is one atomic step of the server. A device may be cut off at any call: the
    request may be lost, or the server may act on it and the answer be lost, and the device may
    see an error or be killed. */
module SyncSystem {
  import opened Wrappers
  import opened SyncTypes
  import opened MemoryVault
  import opened Engine
  import opened Rollback
  import opened ItemServer
  import opened Ledger
  import opened Replication

  type DeviceId = nat

  /** `bases` remembers, for each queued op, what the replica held of its item just before the op
      was staged; no step of the device reads it. */
  datatype Device = Device(cycle: Cycle, bases: seq<Option<StoredItem>>) {
    predicate Idle() {
      cycle.Resting? || cycle.Ended?
    }

    function Held(): Replica {
      cycle.Held()
    }
  }

  const NEW_DEVICE := Device(Resting(Replica(map[], [], 0)), [])

  datatype System = System(world: World, devices: map<DeviceId, Device>)

  datatype Step =
    | Join(dev: DeviceId)
    | StageOp(dev: DeviceId, op: PendingOp)
    | StartSync(dev: DeviceId)
    | Exchange(dev: DeviceId, doomed: set<ItemId>, now: int, answer: Answer)
    | AnswerLost(dev: DeviceId, doomed: set<ItemId>, now: int, answer: Answer, killed: bool)
    | RequestLost(dev: DeviceId, killed: bool)

  function Lookup(items: Items, id: ItemId): Option<StoredItem> {
    if id in items then Some(items[id]) else None
  }

  function HeldRevision(items: Items, id: ItemId): int {
    if id in items then items[id].revision else 0
  }

  /** How the app builds an op: on the revision its replica holds (0 for a new item), and a
      delete only of an item it holds (apps/desktop/src-tauri/src/lib.rs:504-530). */
  predicate BuiltOn(items: Items, op: PendingOp) {
    Base(op) == HeldRevision(items, op.Item()) && (op.Delete? ==> op.target in items)
  }

  /** The server handles one request; a pull first purges the tombstones in `doomed`. */
  ghost predicate Serves(world: World, request: Request, doomed: set<ItemId>, now: int, answer: Answer, next: World) {
    match request
    case AskCheckpoint => next == world && answer == CheckpointIs(world.store.checkpoint)
    case AskPull(since) =>
      doomed <= Tombstones(world.store) && next == PurgeWorld(world, doomed)
      && answer.Pulled? && IsDelta(next.store, since, answer.response)
    case AskPush(op) => (next, answer) == PushWorld(world, op, now)
    case Publish(offered) =>
      next == CheckpointWorld(world, offered)
      && answer == if TagFits(offered.tag) then Done else Failed(Rejected)
  }

  function CutOff(key: VaultKey, cycle: Cycle, killed: bool): Cycle
    requires cycle.Busy()
  {
    if killed then Resting(cycle.Held()) else React(key, cycle, Failed(Network))
  }

  /** The bases of ops that leave the queue leave with them. */
  function Reacted(key: VaultKey, device: Device, answer: Answer): Device
    requires device.cycle.Busy()
  {
    var after := React(key, device.cycle, answer);
    Device(after, Suffix(device.bases, |after.Held().queue|))
  }

  function Suffix<T>(s: seq<T>, n: nat): seq<T> {
    if n <= |s| then s[|s| - n..] else s
  }

  ghost predicate Next(key: VaultKey, s: System, step: Step, s': System) {
    if step.Join? then
      step.dev !in s.devices && s' == s.(devices := s.devices[step.dev := NEW_DEVICE])
    else
      step.dev in s.devices &&
      var device := s.devices[step.dev];
      match step
      case Join(_) => false
      case StageOp(dev, op) =>
        device.Idle() && BuiltOn(device.Held().items, op)
        && s' == s.(devices := s.devices[dev :=
                      Device(Resting(Stage(device.Held(), op)),
                             device.bases + [Lookup(device.Held().items, op.Item())])])
      case StartSync(dev) =>
        device.Idle()
        && s' == s.(devices := s.devices[dev := device.(cycle := Checking(device.Held()))])
      case Exchange(dev, doomed, now, answer) =>
        device.cycle.Busy() && Serves(s.world, CycleAsks(device.cycle), doomed, now, answer, s'.world)
        && s'.devices == s.devices[dev := Reacted(key, device, answer)]
      case AnswerLost(dev, doomed, now, answer, killed) =>
        device.cycle.Busy() && Serves(s.world, CycleAsks(device.cycle), doomed, now, answer, s'.world)
        && s'.devices == s.devices[dev := device.(cycle := CutOff(key, device.cycle, killed))]
      case RequestLost(dev, killed) =>
        device.cycle.Busy() && s'.world == s.world
        && s'.devices == s.devices[dev := device.(cycle := CutOff(key, device.cycle, killed))]
  }

  ghost predicate StepAt(key: VaultKey, trace: seq<System>, steps: seq<Step>, i: nat)
    requires |trace| == |steps| + 1 && i < |steps|
  {
    Next(key, trace[i], steps[i], trace[i + 1])
  }

  ghost predicate Execution(key: VaultKey, trace: seq<System>, steps: seq<Step>) {
    && |trace| == |steps| + 1
    && trace[0] == System(NEW_WORLD, map[])
    && (forall i | 0 <= i < |steps| :: StepAt(key, trace, steps, i))
  }

  // ---- The side conditions of the theorems about runs

  /** A delete is staged only for an item without a queued op. */
  predicate DeletesAlone(s: System, step: Step) {
    step.StageOp? && step.dev in s.devices && step.op.Delete? ==>
      step.op.Item() !in Queued(s.devices[step.dev].Held().queue)
  }

  /** An op is staged only for an item without a queued op. */
  predicate OneOpPerItem(s: System, step: Step) {
    step.StageOp? && step.dev in s.devices ==> step.op.Item() !in Queued(s.devices[step.dev].Held().queue)
  }

  /** When a pull from 0 is answered, no clean live item of the device is unknown to the server. */
  ghost predicate NoLeftovers(s: System, step: Step, s': System) {
    step.Exchange? && step.dev in s.devices && s.devices[step.dev].cycle.Busy()
    && CycleAsks(s.devices[step.dev].cycle) == AskPull(0) ==>
      var replica := s.devices[step.dev].Held();
      forall id | Live(replica.items, id) && id !in Queued(replica.queue) :: id in s'.world.store.rows
  }

  // ---- What the server does to the world in one step of the system

  lemma ServesIsServerStep(world: World, request: Request, doomed: set<ItemId>, now: int, answer: Answer, next: World)
    requires Serves(world, request, doomed, now, answer, next)
    ensures next == world || exists step :: ServerNext(world, step, next)
  {
    match request {
      case AskCheckpoint =>
      case AskPull(_) => assert ServerNext(world, Purges(doomed), next);
      case AskPush(op) => assert ServerNext(world, Pushes(op, now), next);
      case Publish(offered) => assert ServerNext(world, Stores(offered), next);
    }
  }

  lemma WorldMoves(key: VaultKey, s: System, step: Step, s': System)
    requires Next(key, s, step, s')
    ensures s'.world == s.world || exists move :: ServerNext(s.world, move, s'.world)
  {
    if step.Exchange? || step.AnswerLost? {
      ServesIsServerStep(s.world, CycleAsks(s.devices[step.dev].cycle), step.doomed, step.now, step.answer, s'.world);
    }
  }

  /** The server's validity, its counter and its horizon along any run. */
  lemma WorldKeeps(key: VaultKey, s: System, step: Step, s': System)
    requires Next(key, s, step, s') && Valid(s.world)
    ensures Valid(s'.world)
    ensures s.world.store.syncSeq <= s'.world.store.syncSeq
    ensures s.world.store.purgedBefore <= s'.world.store.purgedBefore
  {
    WorldMoves(key, s, step, s');
    if s'.world != s.world {
      var move :| ServerNext(s.world, move, s'.world);
      ServerRises(s.world, move, s'.world);
    }
  }

  /** What the server does is made up for by the next delta or resync. */
  lemma WorldKeepsUpTo(key: VaultKey, s: System, step: Step, s': System, items: Items, cursor: int, id: ItemId)
    requires Next(key, s, step, s') && Valid(s.world)
    requires cursor <= s.world.store.syncSeq && UpTo(items, s.world, cursor, id)
    ensures UpTo(items, s'.world, cursor, id)
  {
    WorldMoves(key, s, step, s');
    if s'.world != s.world {
      var move :| ServerNext(s.world, move, s'.world);
      ServerStepKeeps(s.world, move, s'.world, items, cursor, id);
    }
  }

  lemma {:induction false} WorldsValid(key: VaultKey, trace: seq<System>, steps: seq<Step>, i: nat)
    requires Execution(key, trace, steps) && i < |trace|
    ensures Valid(trace[i].world)
  {
    if i == 0 {
      NewWorldValid();
    } else {
      WorldsValid(key, trace, steps, i - 1);
      assert StepAt(key, trace, steps, i - 1);
      WorldKeeps(key, trace[i - 1], steps[i - 1], trace[i]);
    }
  }

  // ---- What every run keeps of every device, with no side condition

  /** An item is stored under its own id. */
  predicate OwnIds(items: Items) {
    forall id | id in items :: items[id].itemId == id
  }

  /** Cursor, pulls and server counter are in order. */
  predicate InStep(store: Store, cycle: Cycle) {
    var cursor := cycle.Held().lastSeq;
    && 0 <= cursor <= store.syncSeq
    && (cycle.Syncing? ==>
          && cycle.run.Active()
          && match cycle.run.progress
             case Pulling(floor) => floor == cursor
             case Pushing(pulled) => cursor <= pulled <= store.syncSeq
             case Tailing(pulled) => cursor <= pulled <= store.syncSeq && cycle.run.replica.queue == []
             case Finished(_) => false)
  }

  predicate WellKept(store: Store, cycle: Cycle) {
    InStep(store, cycle) && OwnIds(cycle.Held().items)
  }

  lemma CutOffHolds(key: VaultKey, cycle: Cycle, killed: bool)
    requires cycle.Busy()
    ensures CutOff(key, cycle, killed).Held() == cycle.Held() && !CutOff(key, cycle, killed).Syncing?
  {
  }

  lemma EngineHolds(key: VaultKey, cycle: Cycle, answer: Answer)
    requires cycle.Syncing? && cycle.run.Active()
    ensures React(key, cycle, answer).Held() == Deliver(cycle.run, answer).replica
  {
  }

  lemma OthersHold(key: VaultKey, cycle: Cycle, answer: Answer)
    requires cycle.Checking? || cycle.Publishing?
    ensures React(key, cycle, answer).Held() == cycle.Held()
    ensures React(key, cycle, answer).Syncing? ==>
              React(key, cycle, answer).run == Begin(cycle.Held()) && cycle.Checking?
  {
  }

  lemma {:induction false} ApplyKeepsOwnIds(items: Items, pulled: seq<RemoteItem>, dirty: set<ItemId>)
    requires OwnIds(items)
    ensures OwnIds(ApplyClean(items, pulled, dirty))
  {
    if pulled != [] {
      ApplyKeepsOwnIds(items, pulled[..|pulled| - 1], dirty);
    }
  }

  lemma DeliverKeepsOwnIds(run: Run, answer: Answer)
    requires run.Active() && OwnIds(run.replica.items)
    ensures OwnIds(Deliver(run, answer).replica.items)
  {
    if answer.Pulled? {
      ApplyKeepsOwnIds(run.replica.items, answer.response.items, Queued(run.replica.queue));
      ApplyKeepsOwnIds(map[], answer.response.items, Queued(run.replica.queue));
      ApplyKeepsOwnIds(run.replica.items, answer.response.items, {});
    }
  }

  lemma EngineInStep(key: VaultKey, store: Store, cycle: Cycle, answer: Answer)
    requires cycle.Syncing? && InStep(store, cycle)
    requires Asks(cycle.run).AskPull? ==> answer.Pulled? && answer.response.latestSeq == store.syncSeq
    requires Asks(cycle.run).AskPush? ==> answer.Pushed? || answer.Failed?
    ensures InStep(store, React(key, cycle, answer))
  {
  }

  lemma ReactKeeps(key: VaultKey, store: Store, cycle: Cycle, answer: Answer)
    requires cycle.Busy() && WellKept(store, cycle)
    requires CycleAsks(cycle).AskPull? ==> answer.Pulled? && answer.response.latestSeq == store.syncSeq
    requires CycleAsks(cycle).AskPush? ==> answer.Pushed? || answer.Failed?
    ensures WellKept(store, React(key, cycle, answer))
  {
    if cycle.Syncing? {
      EngineHolds(key, cycle, answer);
      DeliverKeepsOwnIds(cycle.run, answer);
      EngineInStep(key, store, cycle, answer);
    } else {
      OthersHold(key, cycle, answer);
    }
  }

  /** What the server's answers look like to the device. */
  lemma AnswersFit(world: World, request: Request, doomed: set<ItemId>, now: int, answer: Answer, next: World)
    requires Serves(world, request, doomed, now, answer, next)
    ensures request.AskPull? ==> answer.Pulled? && answer.response.latestSeq == next.store.syncSeq
    ensures request.AskPush? ==> answer.Pushed? || answer.Failed?
  {
  }

  lemma StepKeepsDevice(key: VaultKey, s: System, step: Step, s': System, dev: DeviceId)
    requires Next(key, s, step, s') && Valid(s.world) && dev in s'.devices
    requires dev in s.devices ==> WellKept(s.world.store, s.devices[dev].cycle)
    ensures WellKept(s'.world.store, s'.devices[dev].cycle)
  {
    WorldKeeps(key, s, step, s');
    if step.dev == dev && dev in s.devices {
      var cycle := s.devices[dev].cycle;
      match step {
        case Exchange(_, doomed, now, answer) =>
          AnswersFit(s.world, CycleAsks(cycle), doomed, now, answer, s'.world);
          ReactKeeps(key, s'.world.store, cycle, answer);
        case AnswerLost(_, _, _, _, killed) => CutOffHolds(key, cycle, killed);
        case RequestLost(_, killed) => CutOffHolds(key, cycle, killed);
        case _ =>
      }
    }
  }

  lemma WellKeptOnce(key: VaultKey, trace: seq<System>, steps: seq<Step>, k: nat, dev: DeviceId)
    requires Execution(key, trace, steps) && k < |steps| && dev in trace[k + 1].devices
    requires dev in trace[k].devices ==> WellKept(trace[k].world.store, trace[k].devices[dev].cycle)
    ensures WellKept(trace[k + 1].world.store, trace[k + 1].devices[dev].cycle)
  {
    WorldsValid(key, trace, steps, k);
    assert StepAt(key, trace, steps, k);
    StepKeepsDevice(key, trace[k], steps[k], trace[k + 1], dev);
  }

  lemma {:induction false} AlwaysWellKept(key: VaultKey, trace: seq<System>, steps: seq<Step>, i: nat, dev: DeviceId)
    requires Execution(key, trace, steps) && i < |trace| && dev in trace[i].devices
    ensures WellKept(trace[i].world.store, trace[i].devices[dev].cycle)
  {
    if i > 0 {
      if dev in trace[i - 1].devices {
        AlwaysWellKept(key, trace, steps, i - 1, dev);
      }
      WellKeptOnce(key, trace, steps, i - 1, dev);
    }
  }

  // ---- Queues

  lemma QueuedGrows(queue: seq<PendingOp>, op: PendingOp)
    ensures Queued(queue + [op]) == Queued(queue) + {op.Item()}
  {
    var longer := queue + [op];
    forall id | id in Queued(queue) + {op.Item()}
      ensures id in Queued(longer)
    {
      if id == op.Item() {
        assert longer[|queue|].Item() == id;
      } else {
        var k :| 0 <= k < |queue| && queue[k].Item() == id;
        assert longer[k].Item() == id;
      }
    }
  }

  lemma QueuedShrinks(queue: seq<PendingOp>)
    requires queue != []
    ensures Queued(queue) == {queue[0].Item()} + Queued(queue[1..])
  {
    forall id | id in Queued(queue)
      ensures id in {queue[0].Item()} + Queued(queue[1..])
    {
      var k :| 0 <= k < |queue| && queue[k].Item() == id;
      assert k > 0 ==> queue[1..][k - 1] == queue[k];
    }
    forall id | id in Queued(queue[1..])
      ensures id in Queued(queue)
    {
      var k :| 0 <= k < |queue[1..]| && queue[1..][k].Item() == id;
      assert queue[k + 1].Item() == id;
    }
  }

  /** The ruling on an op leaves every other item alone. */
  lemma RuledOthers(items: Items, op: PendingOp, outcome: PushOutcome, id: ItemId)
    requires id != op.Item() && OwnIds(items)
    requires outcome.Conflict? && outcome.current.Some? ==> outcome.current.value.itemId == op.Item()
    ensures var ruled := Ruled(items, op, outcome);
            (id in ruled <==> id in items) && (id in items ==> ruled[id] == items[id])
  {
  }

  /** The server's conflict replies are about the op's own item. */
  lemma RulingsAreItsOwn(world: World, op: PendingOp, now: int)
    ensures var answer := PushWorld(world, op, now).1;
            answer.Pushed? && answer.outcome.Conflict? && answer.outcome.current.Some? ==>
              answer.outcome.current.value.itemId == op.Item()
  {
  }
}
