/** When a replica shows what the server holds, and why a delta pull makes it so whatever was
    purged in between. */
module Replication {
  import opened Wrappers
  import opened SyncTypes
  import opened MemoryVault
  import opened Engine
  import opened ItemServer
  import opened Ledger

  type Items = map<ItemId, StoredItem>

  predicate Live(items: Items, id: ItemId) {
    id in items && !items[id].deleted
  }

  /** What the user sees. */
  function LiveItems(items: Items): Items {
    map id | id in items && !items[id].deleted :: items[id]
  }

  function LiveRows(store: Store): Items {
    map id | id in store.rows && !store.rows[id].deleted :: Stored(Remote(id, store.rows[id]))
  }

  predicate Shows(items: Items, id: ItemId, row: Row) {
    if row.deleted then !Live(items, id) else id in items && items[id] == Stored(Remote(id, row))
  }

  /** The replica and the server agree on `id`. */
  predicate Agrees(items: Items, store: Store, id: ItemId) {
    if id in store.rows then Shows(items, id, store.rows[id]) else !Live(items, id)
  }

  /** The replica agrees with the server on `id` up to what the server did after `cursor`: a
      later write is still to come in a delta, a later purge forces a full resync. */
  predicate UpTo(items: Items, world: World, cursor: int, id: ItemId) {
    if id in world.store.rows
    then world.store.rows[id].seqNo > cursor || Shows(items, id, world.store.rows[id])
    else Live(items, id) ==> id in world.graves && world.graves[id] > cursor
  }

  lemma AgreesIsUpTo(items: Items, world: World, id: ItemId)
    requires Agrees(items, world.store, id)
    ensures forall cursor :: UpTo(items, world, cursor, id)
  {
  }

  lemma AgreementIsSameView(items: Items, store: Store)
    ensures LiveItems(items) == LiveRows(store) <==> forall id :: Agrees(items, store, id)
  {
    if LiveItems(items) == LiveRows(store) {
      forall id
        ensures Agrees(items, store, id)
      {
        assert id in LiveItems(items) <==> id in LiveRows(store);
        assert id in LiveItems(items) ==> LiveItems(items)[id] == LiveRows(store)[id];
      }
    }
    if forall id :: Agrees(items, store, id) {
      forall id
        ensures id in LiveItems(items) <==> id in LiveRows(store)
        ensures id in LiveItems(items) ==> LiveItems(items)[id] == LiveRows(store)[id]
      {
        assert Agrees(items, store, id);
      }
    }
  }

  // ---- Server transitions keep a replica right up to its cursor

  lemma PushKeepsUpTo(items: Items, world: World, cursor: int, id: ItemId, op: PendingOp, now: int)
    requires Valid(world) && cursor <= world.store.syncSeq
    requires UpTo(items, world, cursor, id)
    ensures UpTo(items, PushWorld(world, op, now).0, cursor, id)
  {
    PushShape(world, op, now);
  }

  lemma PurgeKeepsUpTo(items: Items, world: World, cursor: int, id: ItemId, doomed: set<ItemId>)
    requires doomed <= Tombstones(world.store)
    requires UpTo(items, world, cursor, id)
    ensures UpTo(items, PurgeWorld(world, doomed), cursor, id)
  {
  }

  // ---- Applying a listing

  lemma {:induction false} ApplyCleanAt(base: Items, pulled: seq<RemoteItem>, dirty: set<ItemId>, item: RemoteItem)
    requires forall k | 0 <= k < |pulled| && pulled[k].itemId == item.itemId :: pulled[k] == item
    ensures var merged := ApplyClean(base, pulled, dirty);
            if item.itemId in Ids(pulled) && item.itemId !in dirty
            then item.itemId in merged && merged[item.itemId] == Stored(item)
            else (item.itemId in merged <==> item.itemId in base)
                 && (item.itemId in base ==> merged[item.itemId] == base[item.itemId])
  {
    if pulled != [] {
      var last := |pulled| - 1;
      ApplyCleanAt(base, pulled[..last], dirty, item);
      IdsAppend(pulled[..last], pulled[last]);
      assert pulled[..last] + [pulled[last]] == pulled;
    }
  }

  /** After a listing is applied, a clean id is as its row says if listed, as before if not. */
  lemma ListingAt(base: Items, rows: map<ItemId, Row>, since: int, liveOnly: bool,
                  items: seq<RemoteItem>, dirty: set<ItemId>, id: ItemId)
    requires IsListing(rows, since, liveOnly, items)
    ensures var merged := ApplyClean(base, items, dirty);
            if id in rows && Listed(rows[id], since, liveOnly) && id !in dirty
            then id in merged && merged[id] == Stored(Remote(id, rows[id]))
            else (id in merged <==> id in base) && (id in base ==> merged[id] == base[id])
  {
    if id in rows {
      ApplyCleanAt(base, items, dirty, Remote(id, rows[id]));
    } else {
      ApplyCleanAt(base, items, dirty, RemoteItem(id, 0, 0, true, None));
    }
  }

  /** The engine's merge of one pull answer. */
  function Merge(items: Items, response: PullResponse, dirty: set<ItemId>): Items {
    ApplyClean(if response.fullResync then map[] else items, response.items, dirty)
  }

  /** A delta brings a clean item that was right up to `since` to full agreement. At `since` 0 the
      server never asks for a resync, so there it does so exactly if the item is not a live
      leftover of something the server has purged. */
  lemma DeltaSettles(items: Items, world: World, since: int, response: PullResponse, dirty: set<ItemId>, id: ItemId)
    requires Valid(world) && 0 <= since <= world.store.syncSeq
    requires UpTo(items, world, since, id) && id !in dirty
    requires IsDelta(world.store, since, response)
    ensures Agrees(Merge(items, response, dirty), world.store, id) <==>
            (since == 0 && Live(items, id) ==> id in world.store.rows)
  {
    var base: Items := if response.fullResync then map[] else items;
    var from := if response.fullResync then 0 else since;
    ListingAt(base, world.store.rows, from, response.fullResync, response.items, dirty, id);
    if id in world.store.rows {
      assert RowValid(id, world.store.rows[id], world.store.syncSeq);
    }
  }

  /** A dirty item is left alone, or dropped by a full resync. */
  lemma DirtyIsSkipped(items: Items, store: Store, since: int, response: PullResponse, dirty: set<ItemId>, id: ItemId)
    requires IsDelta(store, since, response) && id in dirty
    ensures var merged := Merge(items, response, dirty);
            if response.fullResync then id !in merged
            else (id in merged <==> id in items) && (id in items ==> merged[id] == items[id])
  {
    var base: Items := if response.fullResync then map[] else items;
    ListingAt(base, store.rows, if response.fullResync then 0 else since, response.fullResync,
              response.items, dirty, id);
  }

  // ---- Delta sufficiency over any run of the server

  datatype ServerStep =
    | Purges(doomed: set<ItemId>)
    | Pushes(op: PendingOp, now: int)
    | Stores(offered: Checkpoint)

  ghost predicate ServerNext(world: World, step: ServerStep, next: World) {
    match step
    case Purges(doomed) => doomed <= Tombstones(world.store) && next == PurgeWorld(world, doomed)
    case Pushes(op, now) => next == PushWorld(world, op, now).0
    case Stores(offered) => next == CheckpointWorld(world, offered)
  }

  /** A server life: any pushes, any purges of any tombstones, in any order. */
  ghost predicate ServerRun(worlds: seq<World>, steps: seq<ServerStep>) {
    && |worlds| == |steps| + 1
    && worlds[0] == NEW_WORLD
    && (forall k | 0 <= k < |steps| :: ServerMoves(worlds, steps, k))
  }

  ghost predicate ServerMoves(worlds: seq<World>, steps: seq<ServerStep>, k: nat)
    requires |worlds| == |steps| + 1 && k < |steps|
  {
    ServerNext(worlds[k], steps[k], worlds[k + 1])
  }

  lemma ServerRises(world: World, step: ServerStep, next: World)
    requires Valid(world) && ServerNext(world, step, next)
    ensures Valid(next)
    ensures world.store.syncSeq <= next.store.syncSeq && world.store.purgedBefore <= next.store.purgedBefore
  {
    match step {
      case Purges(doomed) => PurgeKeepsValid(world, doomed);
      case Pushes(op, now) =>
        PushKeepsValid(world, op, now);
        PushShape(world, op, now);
      case Stores(offered) =>
    }
  }

  lemma ServerStepKeeps(world: World, step: ServerStep, next: World, items: Items, cursor: int, id: ItemId)
    requires Valid(world) && ServerNext(world, step, next)
    requires cursor <= world.store.syncSeq && UpTo(items, world, cursor, id)
    ensures UpTo(items, next, cursor, id)
  {
    match step {
      case Purges(doomed) => PurgeKeepsUpTo(items, world, cursor, id, doomed);
      case Pushes(op, now) => PushKeepsUpTo(items, world, cursor, id, op, now);
      case Stores(offered) =>
    }
  }

  lemma {:induction false} ServerRunValid(worlds: seq<World>, steps: seq<ServerStep>, k: nat)
    requires ServerRun(worlds, steps) && k < |worlds|
    ensures Valid(worlds[k])
  {
    if k == 0 {
      NewWorldValid();
    } else {
      ServerRunValid(worlds, steps, k - 1);
      assert ServerMoves(worlds, steps, k - 1);
      ServerRises(worlds[k - 1], steps[k - 1], worlds[k]);
    }
  }

  /** One step of a server life, for a replica right so far. */
  lemma StaysUpToOnce(worlds: seq<World>, steps: seq<ServerStep>, n: nat, items: Items, cursor: int, id: ItemId)
    requires ServerRun(worlds, steps) && n < |steps|
    requires cursor <= worlds[n].store.syncSeq && UpTo(items, worlds[n], cursor, id)
    ensures cursor <= worlds[n + 1].store.syncSeq && UpTo(items, worlds[n + 1], cursor, id)
  {
    ServerRunValid(worlds, steps, n);
    assert ServerMoves(worlds, steps, n);
    ServerRises(worlds[n], steps[n], worlds[n + 1]);
    ServerStepKeeps(worlds[n], steps[n], worlds[n + 1], items, cursor, id);
  }

  /** A replica that agreed with the server at step `k` is right up to that point ever after. */
  lemma {:induction false} StaysUpTo(worlds: seq<World>, steps: seq<ServerStep>, k: nat, n: nat, items: Items, id: ItemId)
    requires ServerRun(worlds, steps) && k <= n < |worlds|
    requires Agrees(items, worlds[k].store, id)
    ensures UpTo(items, worlds[n], worlds[k].store.syncSeq, id)
    ensures worlds[k].store.syncSeq <= worlds[n].store.syncSeq
  {
    if k < n {
      StaysUpTo(worlds, steps, k, n - 1, items, id);
      StaysUpToOnce(worlds, steps, n - 1, items, worlds[k].store.syncSeq, id);
    } else {
      AgreesIsUpTo(items, worlds[k], id);
    }
  }

  /** A replica that showed exactly the server's items at some point, updated with one delta
      from that point's sequence number (cleared first if told to resync), shows exactly the
      server's items now: however many writes, and whatever tombstones were purged, in between. */
  lemma DeltaSuffices(worlds: seq<World>, steps: seq<ServerStep>, k: nat, n: nat, items: Items, response: PullResponse)
    requires ServerRun(worlds, steps) && k <= n < |worlds|
    requires LiveItems(items) == LiveRows(worlds[k].store)
    requires IsDelta(worlds[n].store, worlds[k].store.syncSeq, response)
    ensures LiveItems(Merge(items, response, {})) == LiveRows(worlds[n].store)
  {
    var since := worlds[k].store.syncSeq;
    ServerRunValid(worlds, steps, k);
    ServerRunValid(worlds, steps, n);
    AgreementIsSameView(items, worlds[k].store);
    forall id
      ensures Agrees(Merge(items, response, {}), worlds[n].store, id)
    {
      StaysUpTo(worlds, steps, k, n, items, id);
      assert Agrees(items, worlds[k].store, id);
      assert id in worlds[k].store.rows ==> RowValid(id, worlds[k].store.rows[id], since);
      DeltaSettles(items, worlds[n], since, response, {}, id);
    }
    AgreementIsSameView(Merge(items, response, {}), worlds[n].store);
  }
}
