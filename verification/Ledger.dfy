/** The item store together with its past: which ids were purged and at what sequence number,
    and every version each item went through. Nothing in the store reads the past; the proofs
    about runs do. */
module Ledger {
  import opened Wrappers
  import opened SyncTypes
  import opened ItemServer

  datatype Version = Version(revision: int, seqNo: int, deleted: bool, content: Option<Envelope>)

  /** `graves` holds, for each id ever purged, the sequence number of its last purged tombstone;
      `history` the versions of each item since it was last created, oldest first. */
  datatype World = World(store: Store, graves: map<ItemId, int>, history: map<ItemId, seq<Version>>)

  const NEW_WORLD := World(EMPTY_STORE, map[], map[])

  function VersionOf(row: Row): Version {
    Version(row.revision, row.seqNo, row.deleted, row.content)
  }

  /** The revision an op was built on. */
  function Base(op: PendingOp): int {
    match op
    case Upsert(envelope) => envelope.revision - 1
    case Delete(_, base) => base
  }

  // ---- Transitions of the server alone

  ghost function PurgeWorld(world: World, doomed: set<ItemId>): World
    requires doomed <= Tombstones(world.store)
  {
    world.(store := Purge(world.store, doomed),
           graves := world.graves + (map id | id in doomed :: world.store.rows[id].seqNo))
  }

  function PushWorld(world: World, op: PendingOp, now: int): (World, Answer) {
    var (store, answer) := ApplyPush(world.store, op, now);
    if store == world.store then (world, answer)
    else
      var id := op.Item();
      var past := if id in world.store.rows && id in world.history then world.history[id] else [];
      (world.(store := store, history := world.history[id := past + [VersionOf(store.rows[id])]]), answer)
  }

  function CheckpointWorld(world: World, offered: Checkpoint): World {
    world.(store := PutCheckpoint(world.store, offered))
  }

  // ---- What every transition keeps

  predicate RowValid(id: ItemId, row: Row, syncSeq: int) {
    && 1 <= row.seqNo <= syncSeq
    && 1 <= row.revision
    && row.deleted == row.content.None?
    && (row.content.Some? ==> row.content.value.itemId == id && row.content.value.revision == row.revision)
  }

  ghost predicate StoreValid(store: Store, graves: map<ItemId, int>) {
    && 0 <= store.purgedBefore <= store.syncSeq
    && SeqsDistinct(store)
    && (forall id | id in store.rows :: RowValid(id, store.rows[id], store.syncSeq))
    && (forall id | id in graves :: 1 <= graves[id] <= store.purgedBefore)
  }

  /** Version `k` of an item is its revision `k + 1`, and later versions were written later. */
  predicate Chained(versions: seq<Version>, syncSeq: int) {
    && versions != []
    && (forall k | 0 <= k < |versions| :: versions[k].revision == k + 1 && versions[k].seqNo <= syncSeq)
    && (forall j, k | 0 <= j < k < |versions| :: versions[j].seqNo < versions[k].seqNo)
  }

  function Newest(versions: seq<Version>): Version
    requires versions != []
  {
    versions[|versions| - 1]
  }

  /** An item's versions are chained, and its row, if it has one, is the newest. */
  predicate ItemChained(world: World, id: ItemId)
    requires id in world.history
  {
    && Chained(world.history[id], world.store.syncSeq)
    && (id in world.store.rows ==> Newest(world.history[id]) == VersionOf(world.store.rows[id]))
  }

  ghost predicate HistoryValid(world: World) {
    && world.history.Keys == world.store.rows.Keys + world.graves.Keys
    && (forall id | id in world.history :: ItemChained(world, id))
  }

  ghost predicate Valid(world: World) {
    StoreValid(world.store, world.graves) && HistoryValid(world)
  }

  lemma NewWorldValid()
    ensures Valid(NEW_WORLD)
  {
  }

  lemma FewerRowsStayDistinct(store: Store, fewer: Store)
    requires SeqsDistinct(store) && fewer.syncSeq == store.syncSeq
    requires forall id | id in fewer.rows :: id in store.rows && fewer.rows[id] == store.rows[id]
    ensures SeqsDistinct(fewer)
  {
  }

  lemma GravesBelowHorizon(store: Store, doomed: set<ItemId>, id: ItemId)
    requires doomed <= Tombstones(store) && id in doomed
    ensures store.rows[id].seqNo <= Purge(store, doomed).purgedBefore
  {
  }

  lemma HorizonBelowCounter(store: Store, doomed: set<ItemId>)
    requires doomed <= Tombstones(store) && store.purgedBefore <= store.syncSeq && SeqsDistinct(store)
    ensures store.purgedBefore <= Purge(store, doomed).purgedBefore <= store.syncSeq
  {
  }

  lemma PurgeKeepsStore(world: World, doomed: set<ItemId>)
    requires StoreValid(world.store, world.graves) && doomed <= Tombstones(world.store)
    ensures StoreValid(PurgeWorld(world, doomed).store, PurgeWorld(world, doomed).graves)
  {
    var next := PurgeWorld(world, doomed);
    assert next.store.rows == world.store.rows - doomed;
    FewerRowsStayDistinct(world.store, next.store);
    HorizonBelowCounter(world.store, doomed);
    forall id | id in next.graves
      ensures 1 <= next.graves[id] <= next.store.purgedBefore
    {
      if id in doomed {
        assert RowValid(id, world.store.rows[id], world.store.syncSeq);
        GravesBelowHorizon(world.store, doomed, id);
      }
    }
  }

  lemma PurgeKeepsHistory(world: World, doomed: set<ItemId>)
    requires HistoryValid(world) && doomed <= Tombstones(world.store)
    ensures HistoryValid(PurgeWorld(world, doomed))
  {
    var next := PurgeWorld(world, doomed);
    assert next.store.rows == world.store.rows - doomed;
    assert next.history.Keys == next.store.rows.Keys + next.graves.Keys;
    forall id | id in next.history
      ensures ItemChained(next, id)
    {
      assert ItemChained(world, id);
    }
  }

  lemma PurgeKeepsValid(world: World, doomed: set<ItemId>)
    requires Valid(world) && doomed <= Tombstones(world.store)
    ensures Valid(PurgeWorld(world, doomed))
  {
    PurgeKeepsStore(world, doomed);
    PurgeKeepsHistory(world, doomed);
  }

  /** What an accepted, state-changing push does to the world: one new row, one new version. */
  lemma PushShape(world: World, op: PendingOp, now: int)
    requires Valid(world)
    ensures var (next, _) := PushWorld(world, op, now);
            var id := op.Item();
            next == world ||
            (&& Base(op) == CurrentRevision(world.store, id)
             && next.store.syncSeq == world.store.syncSeq + 1
             && next.store.rows.Keys == world.store.rows.Keys + {id}
             && next.store.rows[id].revision == Base(op) + 1
             && next.store.rows[id].seqNo == next.store.syncSeq
             && next.store.rows[id].deleted == op.Delete?
             && next.store.rows[id].content == (if op.Upsert? then Some(op.envelope) else None)
             && next.store == world.store.(rows := world.store.rows[id := next.store.rows[id]],
                                           syncSeq := next.store.syncSeq)
             && next.history == world.history[id := (if id in world.store.rows then world.history[id] else [])
                                                    + [VersionOf(next.store.rows[id])]]
             && next.graves == world.graves
             && (op.Delete? ==> id in world.store.rows && !world.store.rows[id].deleted))
  {
    var id := op.Item();
    assert id in world.store.rows ==>
             id in world.history && RowValid(id, world.store.rows[id], world.store.syncSeq);
  }

  lemma WriteKeepsStore(store: Store, graves: map<ItemId, int>, id: ItemId, row: Row)
    requires StoreValid(store, graves)
    requires row.seqNo == store.syncSeq + 1 && RowValid(id, row, row.seqNo)
    ensures StoreValid(store.(rows := store.rows[id := row], syncSeq := row.seqNo), graves)
  {
    var next := store.(rows := store.rows[id := row], syncSeq := row.seqNo);
    assert forall other | other in next.rows :: RowValid(other, next.rows[other], next.syncSeq);
    assert SeqsDistinct(next);
  }

  lemma ChainGrows(versions: seq<Version>, syncSeq: int, version: Version)
    requires versions == [] || Chained(versions, syncSeq)
    requires version.revision == |versions| + 1 && version.seqNo == syncSeq + 1
    ensures Chained(versions + [version], syncSeq + 1)
    ensures Newest(versions + [version]) == version
  {
  }

  /** Writing one row and appending its version keeps the history right. */
  lemma AppendKeepsHistory(world: World, next: World, id: ItemId, row: Row)
    requires HistoryValid(world)
    requires row.seqNo == world.store.syncSeq + 1 && row.revision == CurrentRevision(world.store, id) + 1
    requires next.store == world.store.(rows := world.store.rows[id := row], syncSeq := row.seqNo)
    requires next.graves == world.graves
    requires next.history == world.history[id := (if id in world.store.rows then world.history[id] else [])
                                                 + [VersionOf(row)]]
    ensures HistoryValid(next)
  {
    assert next.history.Keys == next.store.rows.Keys + next.graves.Keys;
    forall other | other in next.history
      ensures ItemChained(next, other)
    {
      if other == id {
        var past := if id in world.store.rows then world.history[id] else [];
        assert id in world.store.rows ==> ItemChained(world, id);
        ChainGrows(past, world.store.syncSeq, VersionOf(row));
      } else {
        assert ItemChained(world, other);
      }
    }
  }

  lemma PushKeepsValid(world: World, op: PendingOp, now: int)
    requires Valid(world)
    ensures Valid(PushWorld(world, op, now).0)
  {
    var next, id := PushWorld(world, op, now).0, op.Item();
    PushShape(world, op, now);
    if next != world {
      WriteKeepsStore(world.store, world.graves, id, next.store.rows[id]);
      AppendKeepsHistory(world, next, id, next.store.rows[id]);
    }
  }

  /** No lost update, at the server: a push that changes the store replaces exactly the revision
      it was built on, as the next link of the item's chain, and touches no other item. */
  lemma EachWriteReplacesItsBase(world: World, op: PendingOp, now: int)
    requires Valid(world)
    ensures var (next, answer) := PushWorld(world, op, now);
            var id := op.Item();
            next.store != world.store ==>
              && Base(op) == CurrentRevision(world.store, id)
              && answer.Pushed? && answer.outcome.Accepted? && answer.outcome.revision == Base(op) + 1
              && id in next.history && |next.history[id]| == Base(op) + 1
              && (id in world.store.rows ==> id in world.history && next.history[id][..Base(op)] == world.history[id])
              && (forall other | other in world.store.rows && other != id ::
                    other in next.store.rows && next.store.rows[other] == world.store.rows[other])
  {
    PushShape(world, op, now);
    assert op.Item() in world.store.rows ==> ItemChained(world, op.Item());
  }
}
