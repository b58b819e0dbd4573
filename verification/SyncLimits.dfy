/** Where the sync guarantees stop: for each side condition of the run theorems, a run of honest
    server and devices that breaks the guarantee without it, or exactly when the code fails. */
module SyncLimits {
  import opened Wrappers
  import opened SyncTypes
  import opened MemoryVault
  import opened Engine
  import opened Rollback
  import opened ItemServer
  import opened Ledger
  import opened Replication
  import opened SyncSystem
  import opened SyncPlays
  import Convergence
  import LostUpdate
  import FalseAlarm

  // ---- The item created, and deleted, and purged

  predicate Creates(created: Envelope) {
    created.revision == 1 && created.size <= MAX_CONTENT_BYTES
  }

  function LiveRow(created: Envelope): Row {
    Row(1, 1, false, Some(created), 0)
  }

  const TOMBSTONE := Row(2, 2, true, None, 0)

  function CreatedWorld(created: Envelope): World {
    PushWorld(NEW_WORLD, Upsert(created), 0).0
  }

  function DeletedWorld(created: Envelope): World {
    PushWorld(CreatedWorld(created), PendingOp.Delete(created.itemId, 1), 0).0
  }

  lemma CreatedIs(created: Envelope)
    requires Creates(created)
    ensures CreatedWorld(created).store == Store(map[created.itemId := LiveRow(created)], 1, 0, None)
    ensures PushWorld(NEW_WORLD, Upsert(created), 0).1 == Pushed(Accepted(1, 1))
  {
  }

  lemma DeletedIs(created: Envelope)
    requires Creates(created)
    ensures DeletedWorld(created).store == Store(map[created.itemId := TOMBSTONE], 2, 0, None)
    ensures PushWorld(CreatedWorld(created), PendingOp.Delete(created.itemId, 1), 0).1 == Pushed(Accepted(2, 0))
  {
    CreatedIs(created);
  }

  lemma PurgedIs(created: Envelope)
    requires Creates(created)
    ensures created.itemId in Tombstones(DeletedWorld(created).store)
    ensures PurgeWorld(DeletedWorld(created), {created.itemId}).store == Store(map[], 2, 2, None)
  {
    DeletedIs(created);
    assert DeletedWorld(created).store.rows - {created.itemId} == map[];
  }

  function LiveItem(created: Envelope): StoredItem {
    StoredItem(created.itemId, 1, false, Some(created))
  }

  const NOTHING := PullResponse([], 0, false)

  function JustCreated(created: Envelope): PullResponse {
    PullResponse([Remote(created.itemId, LiveRow(created))], 1, false)
  }

  lemma JustCreatedIsDelta(created: Envelope)
    requires Creates(created)
    ensures IsDelta(CreatedWorld(created).store, 0, JustCreated(created))
  {
    CreatedIs(created);
    ListsOne(CreatedWorld(created).store, 0, created.itemId);
  }

  // ---- A delete behind another op of its item

  /** A run by the rule whose last step is the success of a device's sync, without a resync, that
      leaves the device showing something else than the server. */
  ghost predicate Diverges(key: VaultKey, rule: Rule, trace: seq<System>, steps: seq<Step>, dev: DeviceId) {
    && Execution(key, trace, steps) && steps != []
    && (forall k | 0 <= k < |steps| :: ObeysAt(rule, trace, steps, k))
    && var i := |steps| - 1;
       && Convergence.SucceedsAt(trace[i], steps[i], dev)
       && steps[i].answer.Pulled? && !steps[i].answer.response.fullResync
       && dev in trace[i + 1].devices
       && LiveItems(trace[i + 1].devices[dev].Held().items) != LiveRows(trace[i + 1].world.store)
  }

  /** A device waiting for the tail of its sync with nothing to come, showing an item that the
      server does not. */
  lemma EndsDiverged(key: VaultKey, rule: Rule, s: System, dev: DeviceId, id: ItemId)
    requires Reachable(key, rule, s) && IsTailing(s, dev)
    requires var (run, store) := (s.devices[dev].cycle.run, s.world.store);
             && run.progress.pulled == store.syncSeq > 0 && run.replica.queue == []
             && (forall other | other in store.rows :: store.rows[other].seqNo <= store.syncSeq)
             && store.purgedBefore <= store.syncSeq
             && Live(run.replica.items, id) && (id in store.rows ==> store.rows[id].deleted)
    ensures exists trace, steps :: Diverges(key, rule, trace, steps, dev)
  {
    var run, store := s.devices[dev].cycle.run, s.world.store;
    var response := PullResponse([], store.syncSeq, false);
    var s' := AfterTailOf(key, s, dev, response);
    ListsNothing(store, store.syncSeq);
    TailMoves(key, s, dev, response);
    ReachableHas(key, rule, s);
    var trace, steps :| EndsIn(key, rule, trace, steps, s);
    Extends(key, rule, trace, steps, s, Exchange(dev, {}, 0, Pulled(response)), s');
    EngineHolds(key, s.devices[dev].cycle, Pulled(response));
    assert id in LiveItems(s'.devices[dev].Held().items) && id !in LiveRows(store);
    assert (trace + [s'])[|steps|] == s && (trace + [s'])[|steps| + 1] == s';
    assert Diverges(key, rule, trace + [s'], steps + [Exchange(dev, {}, 0, Pulled(response))], dev);
  }

  function DeleteOf(created: Envelope): PendingOp {
    PendingOp.Delete(created.itemId, 1)
  }

  function BothQueued(created: Envelope): Replica {
    Replica(map[created.itemId := StoredItem(created.itemId, 2, true, None)], [Upsert(created), DeleteOf(created)], 0)
  }

  function DeleteQueued(created: Envelope): Replica {
    Replica(map[created.itemId := LiveItem(created)], [DeleteOf(created)], 0)
  }

  /** A new item is staged and deleted again before its device's first sync; the creation reaches
      the server, and the answer does not reach the device. */
  lemma CreationUnheard(key: VaultKey, created: Envelope) returns (s: System)
    requires Creates(created)
    ensures Reachable(key, NothingPurged, s) && s.world == CreatedWorld(created)
    ensures 1 in s.devices && s.devices[1].cycle == Resting(BothQueued(created))
  {
    s := Starts(key, NothingPurged);
    s := Joins(key, NothingPurged, s, 1);
    s := Stages(key, NothingPurged, s, 1, Upsert(created));
    s := Stages(key, NothingPurged, s, 1, DeleteOf(created));
    assert s.devices[1].Held() == BothQueued(created);
    NoPurge(NEW_WORLD);
    ListsNothing(EMPTY_STORE, 0);
    s := Opens(key, NothingPurged, s, 1, {}, NOTHING);
    s := PushesUnheard(key, NothingPurged, s, 1);
  }

  /** The creation is pushed again, conflicts with itself, and its server state is adopted, so the
      device shows the item again. The delete then reaches the server, unheard too. */
  lemma DeletionUnheard(key: VaultKey, created: Envelope) returns (s: System)
    requires Creates(created)
    ensures Reachable(key, NothingPurged, s) && s.world == DeletedWorld(created)
    ensures 1 in s.devices && s.devices[1].cycle == Resting(DeleteQueued(created))
  {
    s := CreationUnheard(key, created);
    CreatedIs(created);
    NoPurge(s.world);
    JustCreatedIsDelta(created);
    AppliesOne(s.devices[1].Held().items, JustCreated(created).items[0], Queued(s.devices[1].Held().queue));
    s := Opens(key, NothingPurged, s, 1, {}, JustCreated(created));
    assert AfterPushOf(s, 1).1 == Pushed(Conflict(Some(Remote(created.itemId, LiveRow(created)))));
    s := PushesHeard(key, NothingPurged, s, 1);
    assert s.devices[1].Held() == DeleteQueued(created) && s.world == CreatedWorld(created);
    s := PushesUnheard(key, NothingPurged, s, 1);
  }

  /** Why a delete must not be staged behind a queued op of its item. One device, two lost answers
      and no purge: the repeated delete is answered as already done, the sync succeeds, and the
      device goes on showing an item that the server has deleted. */
  lemma ChainedDeleteDiverges(key: VaultKey, created: Envelope)
    requires Creates(created)
    ensures exists trace, steps :: Diverges(key, NothingPurged, trace, steps, 1)
  {
    var s := DeletionUnheard(key, created);
    DeletedIs(created);
    NoPurge(s.world);
    var response := PullResponse([Remote(created.itemId, TOMBSTONE)], 2, false);
    ListsOne(s.world.store, 0, created.itemId);
    AppliesOne(s.devices[1].Held().items, response.items[0], Queued(s.devices[1].Held().queue));
    s := Opens(key, NothingPurged, s, 1, {}, response);
    assert AfterPushOf(s, 1) == (s.world, Pushed(Accepted(2, 0)));
    s := PushesHeard(key, NothingPurged, s, 1);
    EndsDiverged(key, NothingPurged, s, 1, created.itemId);
  }

  // ---- Several devices

  /** Holding the created item, clean, with the cursor still at 0. */
  function Holder(created: Envelope): Replica {
    Replica(map[created.itemId := LiveItem(created)], [], 0)
  }

  predicate OnlyMoved(s: System, s': System, dev: DeviceId) {
    forall other | other in s.devices && other != dev :: other in s'.devices && s'.devices[other] == s.devices[other]
  }

  /** Device 1 creates the item and is killed before its tail pull. */
  lemma Created(key: VaultKey, rule: Rule, created: Envelope) returns (s: System)
    requires Creates(created)
    ensures Reachable(key, rule, s) && s.world == CreatedWorld(created)
    ensures s.devices.Keys == {1} && s.devices[1] == Device(Resting(Holder(created)), [])
  {
    s := Starts(key, rule);
    s := Joins(key, rule, s, 1);
    s := Stages(key, rule, s, 1, Upsert(created));
    NoPurge(NEW_WORLD);
    ListsNothing(EMPTY_STORE, 0);
    s := Opens(key, rule, s, 1, {}, NOTHING);
    CreatedIs(created);
    s := PushesHeard(key, rule, s, 1);
    assert s.devices[1].Held() == Holder(created);
    s := Drops(key, rule, s, 1);
  }

  /** A new device pulls the item and waits for its tail. */
  lemma PullsIt(key: VaultKey, rule: Rule, created: Envelope, s: System, dev: DeviceId) returns (s': System)
    requires Creates(created) && Reachable(key, rule, s) && dev !in s.devices && s.world == CreatedWorld(created)
    ensures Reachable(key, rule, s') && s'.world == s.world && OnlyMoved(s, s', dev)
    ensures s'.devices.Keys == s.devices.Keys + {dev} && IsTailing(s', dev) && s'.devices[dev].bases == []
    ensures s'.devices[dev].cycle == Syncing(0, Run(Holder(created), s'.devices[dev].cycle.run.report, Tailing(1)))
  {
    s' := Joins(key, rule, s, dev);
    CreatedIs(created);
    NoPurge(s.world);
    JustCreatedIsDelta(created);
    AppliesOne(map[], JustCreated(created).items[0], {});
    assert Queued([]) == {};
    s' := Opens(key, rule, s', dev, {}, JustCreated(created));
  }

  /** A device that holds the item deletes it, and is killed before its tail pull. */
  lemma DeletesIt(key: VaultKey, rule: Rule, created: Envelope, s: System, dev: DeviceId) returns (s': System)
    requires Creates(created) && Reachable(key, rule, s) && s.world == CreatedWorld(created)
    requires dev in s.devices && s.devices[dev].cycle == Resting(Holder(created))
    ensures Reachable(key, rule, s') && s'.world == DeletedWorld(created) && OnlyMoved(s, s', dev)
    ensures s'.devices.Keys == s.devices.Keys
  {
    s' := Stages(key, rule, s, dev, DeleteOf(created));
    CreatedIs(created);
    NoPurge(s.world);
    JustCreatedIsDelta(created);
    AppliesOne(s'.devices[dev].Held().items, JustCreated(created).items[0], Queued(s'.devices[dev].Held().queue));
    s' := Opens(key, rule, s', dev, {}, JustCreated(created));
    s' := PushesHeard(key, rule, s', dev);
  }

  // ---- A leftover at cursor 0

  /** Why a pull from 0 must not meet leftovers. The creator of an item is cut off before its first
      sync ends; another device deletes the item and its tombstone is purged. The creator's next
      sync, again from 0, succeeds and leaves it showing the item. */
  lemma LeftoverDiverges(key: VaultKey, created: Envelope)
    requires Creates(created)
    ensures exists trace, steps :: Diverges(key, OneOp, trace, steps, 1)
  {
    var s := Created(key, OneOp, created);
    s := PullsIt(key, OneOp, created, s, 2);
    s := Drops(key, OneOp, s, 2);
    s := DeletesIt(key, OneOp, created, s, 2);
    PurgedIs(created);
    DeletedIs(created);
    var response := PullResponse([], 2, false);
    ListsNothing(PurgeWorld(s.world, {created.itemId}).store, 0);
    s := Opens(key, OneOp, s, 1, {created.itemId}, response);
    EndsDiverged(key, OneOp, s, 1, created.itemId);
  }

  /** A whole sync from cursor 0 with nothing queued and nothing else going on: it always
      succeeds, and converges exactly if every live item of the replica is one the server knows. */
  lemma ZeroCursorExactly(world: World, replica: Replica, first: PullResponse, tail: PullResponse)
    requires Valid(world) && replica.queue == [] && replica.lastSeq == 0
    requires forall id :: UpTo(replica.items, world, 0, id)
    requires IsDelta(world.store, 0, first) && IsDelta(world.store, first.latestSeq, tail) && !tail.fullResync
    ensures var end := Drive(Begin(replica), [Pulled(first), Pulled(tail)]);
            && end.progress.outcome.Ok?
            && (LiveItems(end.replica.items) == LiveRows(world.store) <==>
                forall id | Live(replica.items, id) :: id in world.store.rows)
  {
    var merged := Merge(replica.items, first, {});
    var settled := Merge(merged, tail, {});
    var run := Deliver(Begin(replica), Pulled(first));
    Unroll(Begin(replica), [Pulled(first), Pulled(tail)]);
    Unroll(run, [Pulled(tail)]);
    assert Queued(replica.queue) == {};
    assert Drive(Begin(replica), [Pulled(first), Pulled(tail)]).replica.items == settled;
    forall id
      ensures Agrees(settled, world.store, id) <==> (Live(replica.items, id) ==> id in world.store.rows)
    {
      DeltaSettles(replica.items, world, 0, first, {}, id);
      ListingAt(merged, world.store.rows, first.latestSeq, false, tail.items, {}, id);
      assert id in world.store.rows ==> RowValid(id, world.store.rows[id], world.store.syncSeq);
    }
    AgreementIsSameView(settled, world.store);
  }

  // ---- A purged id created again

  /** A run by the rule whose last step has the server accept an op of `dev` over something else
      than `dev` held when it staged the op. */
  ghost predicate LosesUpdate(key: VaultKey, rule: Rule, trace: seq<System>, steps: seq<Step>, dev: DeviceId, op: PendingOp) {
    && Execution(key, trace, steps) && steps != []
    && (forall k | 0 <= k < |steps| :: ObeysAt(rule, trace, steps, k))
    && var i := |steps| - 1;
       && LostUpdate.PushesAt(trace[i], steps[i], dev, op)
       && trace[i + 1].world != trace[i].world
       && trace[i].devices[dev].bases != []
       && !LostUpdate.Replaces(trace[i].world.store, op.Item(), trace[i].devices[dev].bases[0])
  }

  /** Device 2 takes the item to cursor 1. */
  lemma SecondCaughtUp(key: VaultKey, created: Envelope) returns (s: System)
    requires Creates(created)
    ensures Reachable(key, OneOp, s) && s.world == CreatedWorld(created) && s.devices.Keys == {1, 2}
    ensures s.devices[1].cycle == Resting(Holder(created))
    ensures s.devices[2].cycle == Resting(Holder(created).(lastSeq := 1))
  {
    s := Created(key, OneOp, created);
    s := PullsIt(key, OneOp, created, s, 2);
    CreatedIs(created);
    ListsNothing(s.world.store, 1);
    s := Tails(key, OneOp, s, 2, PullResponse([], 1, false));
    assert s.devices[2].Held() == Holder(created).(lastSeq := 1);
    s := Drops(key, OneOp, s, 2);
  }

  /** Then device 3 pulls the item and queues an edit, and device 1 deletes it. */
  lemma EditQueued(key: VaultKey, created: Envelope, edit: Envelope) returns (s: System)
    requires Creates(created) && edit.itemId == created.itemId && edit.revision == 2
    ensures Reachable(key, OneOp, s) && s.world == DeletedWorld(created) && s.devices.Keys == {1, 2, 3}
    ensures s.devices[2].cycle == Resting(Holder(created).(lastSeq := 1))
    ensures s.devices[3].cycle == Resting(Stage(Holder(created), Upsert(edit)))
    ensures s.devices[3].bases == [Some(LiveItem(created))]
  {
    s := SecondCaughtUp(key, created);
    s := PullsIt(key, OneOp, created, s, 3);
    s := Drops(key, OneOp, s, 3);
    s := Stages(key, OneOp, s, 3, Upsert(edit));
    s := DeletesIt(key, OneOp, created, s, 1);
  }

  ghost function PurgedWorld(created: Envelope): World
    requires created.itemId in Tombstones(DeletedWorld(created).store)
  {
    PurgeWorld(DeletedWorld(created), {created.itemId})
  }

  lemma RecreatedIs(created: Envelope, again: Envelope)
    requires Creates(created) && Creates(again) && again.itemId == created.itemId
    requires created.itemId in Tombstones(DeletedWorld(created).store)
    ensures var (world, answer) := PushWorld(PurgedWorld(created), Upsert(again), 0);
            && world.store == Store(map[created.itemId := Row(1, 3, false, Some(again), 0)], 3, 2, None)
            && answer == Pushed(Accepted(1, 3))
  {
    PurgedIs(created);
  }

  /** The tombstone is purged, so device 2 is told to resync and forgets the item. */
  lemma Forgotten(key: VaultKey, created: Envelope, edit: Envelope) returns (s: System)
    requires Creates(created) && edit.itemId == created.itemId && edit.revision == 2
    ensures created.itemId in Tombstones(DeletedWorld(created).store)
    ensures Reachable(key, OneOp, s) && s.devices.Keys == {1, 2, 3} && s.world == PurgedWorld(created)
    ensures s.devices[2].cycle == Resting(Replica(map[], [], 1))
    ensures s.devices[3].cycle == Resting(Stage(Holder(created), Upsert(edit)))
    ensures s.devices[3].bases == [Some(LiveItem(created))]
  {
    s := EditQueued(key, created, edit);
    PurgedIs(created);
    ListsEmptyResync(PurgedWorld(created).store, 1);
    s := Opens(key, OneOp, s, 2, {created.itemId}, PullResponse([], 2, true));
    s := Drops(key, OneOp, s, 2);
  }

  /** Its user, with the item still open, saves it as a new one. */
  lemma SavedAgain(key: VaultKey, created: Envelope, again: Envelope, edit: Envelope) returns (s: System)
    requires Creates(created) && Creates(again) && created.itemId == again.itemId == edit.itemId && edit.revision == 2
    ensures Reachable(key, OneOp, s) && s.devices.Keys == {1, 2, 3}
    ensures s.world.store == Store(map[created.itemId := Row(1, 3, false, Some(again), 0)], 3, 2, None)
    ensures s.devices[3].cycle == Resting(Stage(Holder(created), Upsert(edit)))
    ensures s.devices[3].bases == [Some(LiveItem(created))]
  {
    s := Forgotten(key, created, edit);
    PurgedIs(created);
    ListsEmptyResync(s.world.store, 1);
    s := Stages(key, OneOp, s, 2, Upsert(again));
    NoPurge(s.world);
    s := Opens(key, OneOp, s, 2, {}, PullResponse([], 2, true));
    RecreatedIs(created, again);
    s := PushesHeard(key, OneOp, s, 2);
  }

  /** Why a purged id must not be created again. The server creates the item anew at revision 1,
      and an edit queued on the old revision 1 is accepted over content its author never held. */
  lemma RecreationLosesUpdate(key: VaultKey, created: Envelope, again: Envelope, edit: Envelope)
    requires Creates(created) && Creates(again) && created.itemId == again.itemId == edit.itemId
    requires edit.revision == 2 && edit.size <= MAX_CONTENT_BYTES && again.payload != created.payload
    ensures exists trace, steps :: LosesUpdate(key, OneOp, trace, steps, 3, Upsert(edit))
  {
    var s := SavedAgain(key, created, again, edit);
    var response := PullResponse([Remote(created.itemId, s.world.store.rows[created.itemId])], 3, false);
    NoPurge(s.world);
    ListsOne(s.world.store, 0, created.itemId);
    AppliesOne(s.devices[3].Held().items, response.items[0], Queued(s.devices[3].Held().queue));
    s := Opens(key, OneOp, s, 3, {}, response);
    LastPushLoses(key, OneOp, s, 3, created.itemId, edit);
  }

  lemma LastPushLoses(key: VaultKey, rule: Rule, s: System, dev: DeviceId, id: ItemId, edit: Envelope)
    requires Reachable(key, rule, s) && IsPushing(s, dev) && s.devices[dev].Held().queue[0] == Upsert(edit)
    requires edit.itemId == id && edit.size <= MAX_CONTENT_BYTES && 1 <= edit.revision <= MAX_REVISION
    requires id in s.world.store.rows && s.world.store.rows[id].revision + 1 == edit.revision
    requires s.devices[dev].bases != [] && !LostUpdate.Replaces(s.world.store, id, s.devices[dev].bases[0])
    ensures exists trace, steps :: LosesUpdate(key, rule, trace, steps, dev, Upsert(edit))
  {
    var (world, answer) := AfterPushOf(s, dev);
    var step := Exchange(dev, {}, 0, answer);
    var s' := With(s, dev, Reacted(key, s.devices[dev], answer)).(world := world);
    ReachableHas(key, rule, s);
    PushKeepsGraves(s.world, Upsert(edit), 0);
    var trace, steps :| EndsIn(key, rule, trace, steps, s);
    Extends(key, rule, trace, steps, s, step, s');
    assert (trace + [s'])[|steps|] == s && (trace + [s'])[|steps| + 1] == s';
    assert world.store.syncSeq == s.world.store.syncSeq + 1;
    assert LosesUpdate(key, rule, trace + [s'], steps + [step], dev, Upsert(edit));
  }

  // ---- An op behind one that was not cleanly accepted

  predicate Edits(edit: Envelope, created: Envelope, revision: nat) {
    edit.itemId == created.itemId && edit.revision == revision && edit.size <= MAX_CONTENT_BYTES
  }

  function EditedRow(edit: Envelope): Row {
    Row(2, 2, false, Some(edit), 0)
  }

  lemma EditedIs(world: World, created: Envelope, edit: Envelope)
    requires Creates(created) && world == CreatedWorld(created) && Edits(edit, created, 2)
    ensures var (next, answer) := PushWorld(world, Upsert(edit), 0);
            && next.store == Store(map[created.itemId := EditedRow(edit)], 2, 0, None)
            && answer == Pushed(Accepted(2, 2))
  {
    CreatedIs(created);
  }

  lemma EditedIsDelta(world: World, created: Envelope, edit: Envelope)
    requires world.store == Store(map[created.itemId := EditedRow(edit)], 2, 0, None)
    ensures IsDelta(world.store, 0, PullResponse([Remote(created.itemId, EditedRow(edit))], 2, false))
  {
    ListsOne(world.store, 0, created.itemId);
  }

  /** Device 2 holds the item and queues two edits of it. */
  lemma TwoEditsQueued(key: VaultKey, created: Envelope, mine: Envelope, more: Envelope) returns (s: System)
    requires Creates(created) && Edits(mine, created, 2) && Edits(more, created, 3)
    ensures Reachable(key, NothingPurged, s) && s.devices.Keys == {1, 2} && s.world == CreatedWorld(created)
    ensures s.devices[1] == Device(Resting(Holder(created)), [])
    ensures s.devices[2] == Device(Resting(Stage(Stage(Holder(created), Upsert(mine)), Upsert(more))),
                                   [Some(LiveItem(created)), Some(Staged(Upsert(mine)))])
  {
    s := Created(key, NothingPurged, created);
    s := PullsIt(key, NothingPurged, created, s, 2);
    s := Drops(key, NothingPurged, s, 2);
    s := Stages(key, NothingPurged, s, 2, Upsert(mine));
    s := Stages(key, NothingPurged, s, 2, Upsert(more));
  }

  /** Meanwhile an edit of device 1 is accepted. */
  lemma TheirsAccepted(key: VaultKey, created: Envelope, mine: Envelope, more: Envelope, theirs: Envelope)
    returns (s: System)
    requires Creates(created) && Edits(mine, created, 2) && Edits(more, created, 3) && Edits(theirs, created, 2)
    ensures Reachable(key, NothingPurged, s) && 2 in s.devices
    ensures s.world.store == Store(map[created.itemId := EditedRow(theirs)], 2, 0, None)
    ensures s.devices[2] == Device(Resting(Stage(Stage(Holder(created), Upsert(mine)), Upsert(more))),
                                   [Some(LiveItem(created)), Some(Staged(Upsert(mine)))])
  {
    s := TwoEditsQueued(key, created, mine, more);
    s := Stages(key, NothingPurged, s, 1, Upsert(theirs));
    NoPurge(s.world);
    JustCreatedIsDelta(created);
    AppliesOne(s.devices[1].Held().items, JustCreated(created).items[0], Queued(s.devices[1].Held().queue));
    CreatedIs(created);
    s := Opens(key, NothingPurged, s, 1, {}, JustCreated(created));
    EditedIs(s.world, created, theirs);
    s := PushesHeard(key, NothingPurged, s, 1);
  }

  /** Its next sync: the first edit conflicts, and the server's state is adopted. */
  lemma FirstEditLost(key: VaultKey, created: Envelope, mine: Envelope, more: Envelope, theirs: Envelope)
    returns (s: System)
    requires Creates(created) && Edits(mine, created, 2) && Edits(more, created, 3) && Edits(theirs, created, 2)
    ensures Reachable(key, NothingPurged, s) && IsPushing(s, 2)
    ensures s.devices[2].Held().queue == [Upsert(more)] && s.devices[2].bases == [Some(Staged(Upsert(mine)))]
    ensures s.world.store == Store(map[created.itemId := EditedRow(theirs)], 2, 0, None)
  {
    s := TheirsAccepted(key, created, mine, more, theirs);
    NoPurge(s.world);
    EditedIsDelta(s.world, created, theirs);
    var response := PullResponse([Remote(created.itemId, EditedRow(theirs))], 2, false);
    s := Opens(key, NothingPurged, s, 2, {}, response);
    assert AfterPushOf(s, 2) == (s.world, Pushed(Conflict(Some(response.items[0]))));
    s := PushesHeard(key, NothingPurged, s, 2);
  }

  /** Why an op must not go on behind one that conflicted: a device's second queued edit is accepted
      over another device's edit, which its author never saw. Nothing is purged and no answer lost. */
  lemma ChainedEditsLoseUpdate(key: VaultKey, created: Envelope, mine: Envelope, more: Envelope, theirs: Envelope)
    requires Creates(created) && Edits(mine, created, 2) && Edits(more, created, 3) && Edits(theirs, created, 2)
    requires mine != theirs
    ensures exists trace, steps :: LosesUpdate(key, NothingPurged, trace, steps, 2, Upsert(more))
  {
    var s := FirstEditLost(key, created, mine, more, theirs);
    LastPushLoses(key, NothingPurged, s, 2, created.itemId, more);
  }

  /** When that happens, at the server: after the first of two chained edits conflicted, the second
      is accepted exactly if the server stands at the revision the first would have made, and then
      it replaces that row. */
  lemma ChainedEditsOverwriteExactly(store: Store, first: Envelope, second: Envelope, now: int, later: int)
    requires first.itemId == second.itemId && second.revision == first.revision + 1
    requires 1 <= first.revision && first.size <= MAX_CONTENT_BYTES && second.size <= MAX_CONTENT_BYTES
    requires second.revision <= MAX_REVISION
    ensures var (store', answer) := ApplyPush(store, Upsert(first), now);
            var (store'', answer') := ApplyPush(store', Upsert(second), later);
            && ((answer.Pushed? && answer.outcome.Conflict? && answer'.Pushed? && answer'.outcome.Accepted?) <==>
                CurrentRevision(store, first.itemId) == first.revision)
            && (CurrentRevision(store, first.itemId) == first.revision ==>
                store' == store && first.itemId in store.rows
                && store''.rows[first.itemId].content == Some(second))
  {
  }

  /** A new item is staged and edited before its device's first sync; the creation reaches the
      server, and the answer does not reach the device. */
  lemma CreationOfTwoUnheard(key: VaultKey, created: Envelope, edit: Envelope) returns (s: System)
    requires Creates(created) && Edits(edit, created, 2)
    ensures Reachable(key, NothingPurged, s) && s.world == CreatedWorld(created) && 1 in s.devices
    ensures s.devices[1].cycle == Resting(Replica(map[created.itemId := Staged(Upsert(edit))],
                                                  [Upsert(created), Upsert(edit)], 0))
  {
    s := Starts(key, NothingPurged);
    s := Joins(key, NothingPurged, s, 1);
    s := Stages(key, NothingPurged, s, 1, Upsert(created));
    s := Stages(key, NothingPurged, s, 1, Upsert(edit));
    NoPurge(NEW_WORLD);
    ListsNothing(EMPTY_STORE, 0);
    s := Opens(key, NothingPurged, s, 1, {}, NOTHING);
    s := PushesUnheard(key, NothingPurged, s, 1);
  }

  /** The creation is pushed again and conflicts with itself, so the device shows the first version;
      the edit is accepted, and the device is killed before its tail pull. It now holds the first
      version under the edit's revision, with nothing queued. */
  lemma EditForgotten(key: VaultKey, created: Envelope, edit: Envelope) returns (s: System)
    requires Creates(created) && Edits(edit, created, 2)
    ensures Reachable(key, NothingPurged, s) && 1 in s.devices
    ensures s.world.store == Store(map[created.itemId := EditedRow(edit)], 2, 0, None)
    ensures s.devices[1] == Device(Resting(Replica(map[created.itemId := LiveItem(created).(revision := 2)], [], 0)), [])
  {
    s := CreationOfTwoUnheard(key, created, edit);
    CreatedIs(created);
    NoPurge(s.world);
    JustCreatedIsDelta(created);
    AppliesOne(s.devices[1].Held().items, JustCreated(created).items[0], Queued(s.devices[1].Held().queue));
    s := Opens(key, NothingPurged, s, 1, {}, JustCreated(created));
    assert AfterPushOf(s, 1) == (s.world, Pushed(Conflict(Some(JustCreated(created).items[0]))));
    s := PushesHeard(key, NothingPurged, s, 1);
    EditedIs(s.world, created, edit);
    s := PushesHeard(key, NothingPurged, s, 1);
    assert s.devices[1].Held() == Replica(map[created.itemId := LiveItem(created).(revision := 2)], [], 0);
    s := Drops(key, NothingPurged, s, 1);
    ReachableHas(key, NothingPurged, s);
  }

  /** Nor behind one whose answer was lost. One device, one lost answer: its user's next edit, made
      on the old version the device shows again, overwrites the accepted one, though no other op
      was queued when it was made. */
  lemma LostAnswerLosesUpdate(key: VaultKey, created: Envelope, edit: Envelope, later: Envelope)
    requires Creates(created) && Edits(edit, created, 2) && Edits(later, created, 3)
    ensures exists trace, steps :: LosesUpdate(key, NothingPurged, trace, steps, 1, Upsert(later))
  {
    var s := EditForgotten(key, created, edit);
    s := Stages(key, NothingPurged, s, 1, Upsert(later));
    NoPurge(s.world);
    EditedIsDelta(s.world, created, edit);
    var response := PullResponse([Remote(created.itemId, EditedRow(edit))], 2, false);
    s := Opens(key, NothingPurged, s, 1, {}, response);
    LastPushLoses(key, NothingPurged, s, 1, created.itemId, later);
  }

  // ---- A lost publish

  /** A run whose last step raises an alarm on a device. */
  ghost predicate RunsIntoAlarm(key: VaultKey, trace: seq<System>, steps: seq<Step>, dev: DeviceId) {
    && Execution(key, trace, steps) && steps != []
    && FalseAlarm.RaisesAlarm(trace[|steps| - 1], trace[|steps|], dev)
  }

  /** Device 1 creates the item and publishes cursor 1. */
  lemma Published(key: VaultKey, created: Envelope) returns (s: System)
    requires Creates(created)
    ensures Reachable(key, OneOp, s) && 1 in s.devices && s.devices[1].Idle()
    ensures s.devices[1].Held() == Holder(created).(lastSeq := 1)
    ensures s.world.store == CreatedWorld(created).store.(checkpoint := Some(Sealed(key, 1)))
  {
    s := Starts(key, OneOp);
    s := Joins(key, OneOp, s, 1);
    s := Stages(key, OneOp, s, 1, Upsert(created));
    NoPurge(NEW_WORLD);
    ListsNothing(EMPTY_STORE, 0);
    s := Opens(key, OneOp, s, 1, {}, NOTHING);
    CreatedIs(created);
    s := PushesHeard(key, OneOp, s, 1);
    JustCreatedIsDelta(created);
    AppliesOne(s.devices[1].Held().items, JustCreated(created).items[0], {});
    s := Tails(key, OneOp, s, 1, JustCreated(created));
    assert s.devices[1].Held() == Holder(created).(lastSeq := 1);
    s := Lands(key, OneOp, s, 1);
  }

  /** Its next sync takes the cursor to 2, and that publish is lost. */
  lemma PublishLost(key: VaultKey, created: Envelope) returns (s: System)
    requires Creates(created)
    ensures Reachable(key, OneOp, s) && 1 in s.devices && s.devices[1].Idle()
    ensures s.devices[1].Held().lastSeq == 2 && s.world.store.checkpoint == Some(Sealed(key, 1))
  {
    s := Published(key, created);
    CreatedIs(created);
    s := Stages(key, OneOp, s, 1, DeleteOf(created));
    NoPurge(s.world);
    ListsNothing(s.world.store, 1);
    s := Opens(key, OneOp, s, 1, {}, PullResponse([], 1, false));
    s := PushesHeard(key, OneOp, s, 1);
    assert s.world.store == Store(map[created.itemId := TOMBSTONE], 2, 0, Some(Sealed(key, 1)));
    var response := PullResponse([Remote(created.itemId, TOMBSTONE)], 2, false);
    ListsOne(s.world.store, 1, created.itemId);
    s := Tails(key, OneOp, s, 1, response);
    s := Drops(key, OneOp, s, 1);
  }

  /** Why publishes must not be lost: with nobody else around and an honest server, the device's
      next sync reports a rollback. */
  lemma LostPublishAlarms(key: VaultKey, created: Envelope)
    requires Creates(created)
    ensures exists trace, steps :: RunsIntoAlarm(key, trace, steps, 1)
  {
    var s := PublishLost(key, created);
    var s1 := Placed(s, 1, Checking(s.devices[1].Held()));
    Then(key, OneOp, s, StartSync(1), s1);
    var answer := CheckpointIs(s.world.store.checkpoint);
    var s2 := With(s1, 1, Reacted(key, s1.devices[1], answer));
    var trace, steps :| EndsIn(key, OneOp, trace, steps, s1);
    Extends(key, OneOp, trace, steps, s1, Exchange(1, {}, 0, answer), s2);
    assert (trace + [s2])[|steps|] == s1 && (trace + [s2])[|steps| + 1] == s2;
    assert RunsIntoAlarm(key, trace + [s2], steps + [Exchange(1, {}, 0, answer)], 1);
  }
}
