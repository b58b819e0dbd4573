/** Building single runs of the system step by step, to show that a state can be reached. */
module SyncPlays {
  import opened SyncTypes
  import opened MemoryVault
  import opened Engine
  import opened Rollback
  import opened ItemServer
  import opened Ledger
  import opened Replication
  import opened SyncSystem
  import LostUpdate

  /** What every step of the run keeps: one op queued for an item at a time; or nothing purged,
      and pulls from 0 without leftovers. */
  datatype Rule = OneOp | NothingPurged

  ghost predicate Obeys(rule: Rule, s: System, step: Step, s': System) {
    match rule
    case OneOp => OneOpPerItem(s, step)
    case NothingPurged => NoLeftovers(s, step, s') && s'.world.graves == map[]
  }

  ghost predicate ObeysAt(rule: Rule, trace: seq<System>, steps: seq<Step>, k: nat)
    requires |trace| == |steps| + 1 && k < |steps|
  {
    Obeys(rule, trace[k], steps[k], trace[k + 1])
  }

  /** `trace` is a run by the rule that ends in `s`. */
  ghost predicate EndsIn(key: VaultKey, rule: Rule, trace: seq<System>, steps: seq<Step>, s: System) {
    && Execution(key, trace, steps) && trace[|steps|] == s
    && forall k | 0 <= k < |steps| :: ObeysAt(rule, trace, steps, k)
  }

  ghost predicate Reachable(key: VaultKey, rule: Rule, s: System) {
    exists trace, steps :: EndsIn(key, rule, trace, steps, s)
  }

  lemma Starts(key: VaultKey, rule: Rule) returns (s: System)
    ensures s == System(NEW_WORLD, map[]) && Reachable(key, rule, s)
  {
    s := System(NEW_WORLD, map[]);
    assert EndsIn(key, rule, [System(NEW_WORLD, map[])], [], System(NEW_WORLD, map[]));
  }

  lemma Extends(key: VaultKey, rule: Rule, trace: seq<System>, steps: seq<Step>, s: System, step: Step, s': System)
    requires EndsIn(key, rule, trace, steps, s) && Next(key, s, step, s') && Obeys(rule, s, step, s')
    ensures EndsIn(key, rule, trace + [s'], steps + [step], s')
  {
    var longer, more := trace + [s'], steps + [step];
    forall k | 0 <= k < |more| ensures StepAt(key, longer, more, k) && ObeysAt(rule, longer, more, k) {
      if k < |steps| {
        assert StepAt(key, trace, steps, k) && ObeysAt(rule, trace, steps, k);
      }
    }
  }

  /** What a reachable state has: a base for every queued op, and, by the rule, no graves. */
  lemma ReachableHas(key: VaultKey, rule: Rule, s: System)
    requires Reachable(key, rule, s)
    ensures forall dev | dev in s.devices :: |s.devices[dev].bases| == |s.devices[dev].Held().queue|
    ensures rule.NothingPurged? ==> s.world.graves == map[]
  {
    var trace, steps :| EndsIn(key, rule, trace, steps, s);
    forall dev | dev in s.devices ensures |s.devices[dev].bases| == |s.devices[dev].Held().queue| {
      LostUpdate.QueuedOpsWereStaged(key, trace, steps, |steps|, dev, 0);
    }
    if |steps| > 0 {
      assert ObeysAt(rule, trace, steps, |steps| - 1);
    }
  }

  /** One more step that keeps the rule; the graves matter only where there are none. */
  lemma Then(key: VaultKey, rule: Rule, s: System, step: Step, s': System)
    requires Reachable(key, rule, s) && Next(key, s, step, s')
    requires rule.OneOp? ==> OneOpPerItem(s, step)
    requires rule.NothingPurged? ==> NoLeftovers(s, step, s') && s'.world.graves == s.world.graves
    ensures Reachable(key, rule, s')
  {
    ReachableHas(key, rule, s);
    var trace, steps :| EndsIn(key, rule, trace, steps, s);
    Extends(key, rule, trace, steps, s, step, s');
  }

  lemma PushKeepsGraves(world: World, op: PendingOp, now: int)
    ensures PushWorld(world, op, now).0.graves == world.graves
  {
  }

  lemma WholeSuffix<T>(s: seq<T>)
    ensures Suffix(s, |s|) == s
  {
  }

  // ---- The moves of a device

  function With(s: System, dev: DeviceId, device: Device): System {
    s.(devices := s.devices[dev := device])
  }

  function Placed(s: System, dev: DeviceId, cycle: Cycle): System
    requires dev in s.devices
  {
    With(s, dev, s.devices[dev].(cycle := cycle))
  }

  lemma Joins(key: VaultKey, rule: Rule, s: System, dev: DeviceId)
    returns (s': System)
    requires Reachable(key, rule, s) && dev !in s.devices
    ensures s' == With(s, dev, NEW_DEVICE) && Reachable(key, rule, s')
  {
    s' := With(s, dev, NEW_DEVICE);
    Then(key, rule, s, Join(dev), s');
  }

  function StagedDevice(device: Device, op: PendingOp): Device {
    Device(Resting(Stage(device.Held(), op)), device.bases + [Lookup(device.Held().items, op.Item())])
  }

  lemma Stages(key: VaultKey, rule: Rule, s: System, dev: DeviceId, op: PendingOp) returns (s': System)
    requires Reachable(key, rule, s) && dev in s.devices && s.devices[dev].Idle()
    requires BuiltOn(s.devices[dev].Held().items, op)
    requires rule.OneOp? ==> op.Item() !in Queued(s.devices[dev].Held().queue)
    ensures s' == With(s, dev, StagedDevice(s.devices[dev], op)) && Reachable(key, rule, s')
  {
    s' := With(s, dev, StagedDevice(s.devices[dev], op));
    Then(key, rule, s, StageOp(dev, op), s');
  }

  /** The cycle after a first pull. */
  function Opened(verified: int, replica: Replica, response: PullResponse): Cycle {
    Syncing(verified, AfterPull(Begin(replica), replica.lastSeq, response))
  }

  predicate CleanAtZero(rule: Rule, replica: Replica, since: int, world: World) {
    rule.NothingPurged? && since == 0 ==>
      forall id | id in replica.items && Live(replica.items, id) && id !in Queued(replica.queue) :: id in world.store.rows
  }

  lemma NoPurge(world: World)
    ensures PurgeWorld(world, {}) == world
  {
  }

  lemma Begins(key: VaultKey, rule: Rule, s: System, dev: DeviceId) returns (s': System)
    requires Reachable(key, rule, s) && dev in s.devices && s.devices[dev].Idle()
    ensures s' == Placed(s, dev, Checking(s.devices[dev].Held())) && Reachable(key, rule, s')
  {
    s' := Placed(s, dev, Checking(s.devices[dev].Held()));
    Then(key, rule, s, StartSync(dev), s');
  }

  /** The checkpoint request is answered. */
  lemma Passes(key: VaultKey, rule: Rule, s: System, dev: DeviceId) returns (s': System)
    requires Reachable(key, rule, s) && dev in s.devices && s.devices[dev].cycle.Checking?
    requires AfterCheck(key, s.devices[dev].Held(), s.world.store.checkpoint).Syncing?
    ensures s' == Placed(s, dev, AfterCheck(key, s.devices[dev].Held(), s.world.store.checkpoint))
    ensures Reachable(key, rule, s')
  {
    ReachableHas(key, rule, s);
    WholeSuffix(s.devices[dev].bases);
    var answer := CheckpointIs(s.world.store.checkpoint);
    s' := Placed(s, dev, AfterCheck(key, s.devices[dev].Held(), s.world.store.checkpoint));
    assert s'.devices[dev] == Reacted(key, s.devices[dev], answer);
    Then(key, rule, s, Exchange(dev, {}, 0, answer), s');
  }

  /** A sync begins and gets past its checkpoint. */
  lemma Checks(key: VaultKey, rule: Rule, s: System, dev: DeviceId) returns (s': System)
    requires Reachable(key, rule, s) && dev in s.devices && s.devices[dev].Idle()
    requires AfterCheck(key, s.devices[dev].Held(), s.world.store.checkpoint).Syncing?
    ensures s' == Placed(s, dev, AfterCheck(key, s.devices[dev].Held(), s.world.store.checkpoint))
    ensures Reachable(key, rule, s')
  {
    var s1 := Begins(key, rule, s, dev);
    s' := Passes(key, rule, s1, dev);
  }

  /** Its first pull is answered. */
  lemma PullsFirst(key: VaultKey, rule: Rule, s: System, dev: DeviceId, verified: int, doomed: set<ItemId>,
                   response: PullResponse) returns (s': System)
    requires Reachable(key, rule, s) && dev in s.devices
    requires s.devices[dev].cycle == Syncing(verified, Begin(s.devices[dev].Held()))
    requires doomed <= Tombstones(s.world.store) && (rule.NothingPurged? ==> doomed == {})
    requires var replica := s.devices[dev].Held();
             && IsDelta(PurgeWorld(s.world, doomed).store, replica.lastSeq, response)
             && response.latestSeq >= replica.lastSeq
             && CleanAtZero(rule, replica, replica.lastSeq, PurgeWorld(s.world, doomed))
    ensures s' == Placed(s, dev, Opened(verified, s.devices[dev].Held(), response)).(world := PurgeWorld(s.world, doomed))
    ensures Reachable(key, rule, s')
  {
    ReachableHas(key, rule, s);
    WholeSuffix(s.devices[dev].bases);
    if doomed == {} {
      NoPurge(s.world);
    }
    s' := Placed(s, dev, Opened(verified, s.devices[dev].Held(), response)).(world := PurgeWorld(s.world, doomed));
    Then(key, rule, s, Exchange(dev, doomed, 0, Pulled(response)), s');
  }

  /** A sync begins, past its checkpoint, up to the answer of its first pull. */
  lemma Opens(key: VaultKey, rule: Rule, s: System, dev: DeviceId, doomed: set<ItemId>, response: PullResponse)
    returns (s': System)
    requires Reachable(key, rule, s) && dev in s.devices && s.devices[dev].Idle()
    requires AfterCheck(key, s.devices[dev].Held(), s.world.store.checkpoint).Syncing?
    requires doomed <= Tombstones(s.world.store) && (rule.NothingPurged? ==> doomed == {})
    requires var replica := s.devices[dev].Held();
             && IsDelta(PurgeWorld(s.world, doomed).store, replica.lastSeq, response)
             && response.latestSeq >= replica.lastSeq
             && CleanAtZero(rule, replica, replica.lastSeq, PurgeWorld(s.world, doomed))
    ensures var verified := AfterCheck(key, s.devices[dev].Held(), s.world.store.checkpoint).verified;
            s' == Placed(s, dev, Opened(verified, s.devices[dev].Held(), response)).(world := PurgeWorld(s.world, doomed))
    ensures Reachable(key, rule, s')
  {
    var s1 := Checks(key, rule, s, dev);
    s' := PullsFirst(key, rule, s1, dev, s1.devices[dev].cycle.verified, doomed, response);
  }

  predicate IsPushing(s: System, dev: DeviceId) {
    && dev in s.devices && s.devices[dev].cycle.Syncing?
    && s.devices[dev].cycle.run.progress.Pushing? && s.devices[dev].Held().queue != []
  }

  function AfterPushOf(s: System, dev: DeviceId): (World, Answer)
    requires IsPushing(s, dev)
  {
    PushWorld(s.world, s.devices[dev].Held().queue[0], 0)
  }

  /** The server rules on the front op and the device hears of it. */
  lemma PushesHeard(key: VaultKey, rule: Rule, s: System, dev: DeviceId) returns (s': System)
    requires Reachable(key, rule, s) && IsPushing(s, dev)
    ensures var (world, answer) := AfterPushOf(s, dev);
            s' == With(s, dev, Reacted(key, s.devices[dev], answer)).(world := world)
    ensures Reachable(key, rule, s')
  {
    var (world, answer) := AfterPushOf(s, dev);
    s' := With(s, dev, Reacted(key, s.devices[dev], answer)).(world := world);
    PushKeepsGraves(s.world, s.devices[dev].Held().queue[0], 0);
    Then(key, rule, s, Exchange(dev, {}, 0, answer), s');
  }

  /** The server rules on the front op, but the device is killed before it hears. */
  lemma PushesUnheard(key: VaultKey, rule: Rule, s: System, dev: DeviceId) returns (s': System)
    requires Reachable(key, rule, s) && IsPushing(s, dev)
    ensures s' == Placed(s, dev, Resting(s.devices[dev].Held())).(world := AfterPushOf(s, dev).0)
    ensures Reachable(key, rule, s')
  {
    var (world, answer) := AfterPushOf(s, dev);
    s' := Placed(s, dev, Resting(s.devices[dev].Held())).(world := world);
    PushKeepsGraves(s.world, s.devices[dev].Held().queue[0], 0);
    Then(key, rule, s, AnswerLost(dev, {}, 0, answer, true), s');
  }

  /** The device is killed before its request reaches the server. */
  lemma Drops(key: VaultKey, rule: Rule, s: System, dev: DeviceId) returns (s': System)
    requires Reachable(key, rule, s) && dev in s.devices && s.devices[dev].cycle.Busy()
    ensures s' == Placed(s, dev, Resting(s.devices[dev].Held())) && Reachable(key, rule, s')
  {
    s' := Placed(s, dev, Resting(s.devices[dev].Held()));
    Then(key, rule, s, RequestLost(dev, true), s');
  }

  /** A publish reaches the server and is confirmed. */
  lemma Lands(key: VaultKey, rule: Rule, s: System, dev: DeviceId) returns (s': System)
    requires Reachable(key, rule, s) && dev in s.devices && s.devices[dev].cycle.Publishing?
    requires TagFits(s.devices[dev].cycle.offered.tag)
    ensures var cycle := s.devices[dev].cycle;
            s' == Placed(s, dev, React(key, cycle, Done)).(world := CheckpointWorld(s.world, cycle.offered))
    ensures Reachable(key, rule, s')
  {
    var cycle := s.devices[dev].cycle;
    s' := Placed(s, dev, React(key, cycle, Done)).(world := CheckpointWorld(s.world, cycle.offered));
    ReachableHas(key, rule, s);
    WholeSuffix(s.devices[dev].bases);
    Then(key, rule, s, Exchange(dev, {}, 0, Done), s');
  }

  predicate IsTailing(s: System, dev: DeviceId) {
    dev in s.devices && s.devices[dev].cycle.Syncing? && s.devices[dev].cycle.run.progress.Tailing?
  }

  function AfterTailOf(key: VaultKey, s: System, dev: DeviceId, response: PullResponse): System
    requires IsTailing(s, dev)
  {
    With(s, dev, Reacted(key, s.devices[dev], Pulled(response)))
  }

  /** The tail pull is answered, nothing being purged. */
  lemma TailMoves(key: VaultKey, s: System, dev: DeviceId, response: PullResponse)
    requires IsTailing(s, dev) && IsDelta(s.world.store, s.devices[dev].cycle.run.progress.pulled, response)
    ensures Next(key, s, Exchange(dev, {}, 0, Pulled(response)), AfterTailOf(key, s, dev, response))
  {
    NoPurge(s.world);
  }

  lemma Tails(key: VaultKey, rule: Rule, s: System, dev: DeviceId, response: PullResponse) returns (s': System)
    requires Reachable(key, rule, s) && IsTailing(s, dev)
    requires var pulled := s.devices[dev].cycle.run.progress.pulled;
             IsDelta(s.world.store, pulled, response) && CleanAtZero(rule, s.devices[dev].Held(), pulled, s.world)
    ensures s' == AfterTailOf(key, s, dev, response) && Reachable(key, rule, s')
  {
    s' := AfterTailOf(key, s, dev, response);
    TailMoves(key, s, dev, response);
    Then(key, rule, s, Exchange(dev, {}, 0, Pulled(response)), s');
  }

  // ---- Short listings

  lemma ListsNothing(store: Store, since: int)
    requires forall id | id in store.rows :: store.rows[id].seqNo <= since
    requires since >= 0 && !BehindHorizon(store, since)
    ensures IsDelta(store, since, PullResponse([], store.syncSeq, false))
  {
  }

  lemma ListsOne(store: Store, since: int, id: ItemId)
    requires store.rows.Keys == {id} && store.rows[id].seqNo > since && !BehindHorizon(store, since)
    ensures IsDelta(store, since, PullResponse([Remote(id, store.rows[id])], store.syncSeq, false))
  {
    assert [Remote(id, store.rows[id])][0].itemId == id;
  }

  lemma ListsEmptyResync(store: Store, since: int)
    requires store.rows == map[] && BehindHorizon(store, since)
    ensures IsDelta(store, since, PullResponse([], store.syncSeq, true))
  {
  }

  lemma AppliesOne(items: Items, item: RemoteItem, dirty: set<ItemId>)
    ensures ApplyClean(items, [item], dirty) ==
            if item.itemId in dirty then items else items[item.itemId := Stored(item)]
  {
    assert [item][..0] == [];
  }
}
