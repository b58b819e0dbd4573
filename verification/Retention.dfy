/** How long the server keeps tombstones (server/vault-server/src/routes/items.rs:24-25 and 79-103):
    over any life of the store in which every pull purges by its own clock, as `ListItems` does. */
module Retention {
  import opened Wrappers
  import opened SyncTypes
  import opened ItemServer
  import opened Ledger

  datatype LifeStep =
    | Pulls(now: int)
    | Pushes(op: PendingOp, now: int)
    | Stores(offered: Checkpoint)

  ghost function After(store: Store, step: LifeStep): Store {
    match step
    case Pulls(now) => Purge(store, Expired(store, now))
    case Pushes(op, now) => ApplyPush(store, op, now).0
    case Stores(offered) => PutCheckpoint(store, offered)
  }

  ghost predicate MovesOn(stores: seq<Store>, steps: seq<LifeStep>, k: nat)
    requires |stores| == |steps| + 1 && k < |steps|
  {
    stores[k + 1] == After(stores[k], steps[k])
  }

  ghost predicate Life(stores: seq<Store>, steps: seq<LifeStep>) {
    && |stores| == |steps| + 1
    && forall k | 0 <= k < |steps| :: MovesOn(stores, steps, k)
  }

  /** The step writes `id`: an op of it is accepted and changes the store. */
  ghost predicate WritesItem(store: Store, step: LifeStep, id: ItemId) {
    step.Pushes? && step.op.Item() == id && ApplyPush(store, step.op, step.now).0 != store
  }

  lemma OthersStay(store: Store, step: LifeStep, id: ItemId)
    requires !WritesItem(store, step, id) && id in store.rows
    requires step.Pulls? ==> id !in Expired(store, step.now)
    ensures id in After(store, step).rows && After(store, step).rows[id] == store.rows[id]
  {
  }

  lemma NotWrittenIsNotThere(store: Store, step: LifeStep, id: ItemId)
    requires !WritesItem(store, step, id) && id !in store.rows
    ensures id !in After(store, step).rows
  {
  }

  /** A live item stays exactly as it is until it is written, whatever is pulled. */
  lemma {:induction false} LiveItemsStay(stores: seq<Store>, steps: seq<LifeStep>, k: nat, n: nat, id: ItemId)
    requires Life(stores, steps) && k <= n <= |steps|
    requires id in stores[k].rows && !stores[k].rows[id].deleted
    requires forall m | k <= m < n :: !WritesItem(stores[m], steps[m], id)
    ensures id in stores[n].rows && stores[n].rows[id] == stores[k].rows[id]
  {
    if k < n {
      LiveItemsStay(stores, steps, k, n - 1, id);
      assert MovesOn(stores, steps, n - 1);
      OthersStay(stores[n - 1], steps[n - 1], id);
    }
  }

  /** A pull whose clock is more than thirty days past `at`. */
  predicate PullsAfter(step: LifeStep, at: int) {
    step.Pulls? && step.now > at + 30 * 24 * 60 * 60
  }

  /** A delete that was accepted at `at`. */
  lemma AcceptedDelete(store: Store, id: ItemId, base: int, at: int)
    requires ApplyPush(store, PendingOp.Delete(id, base), at).0 != store
    ensures var next := ApplyPush(store, PendingOp.Delete(id, base), at).0;
            id in next.rows && next.rows[id] == Row(base + 1, store.syncSeq + 1, true, None, at)
  {
  }

  /** One pull purges a tombstone exactly if it comes more than thirty days after its delete. */
  lemma PurgedExactly(store: Store, id: ItemId, now: int)
    requires id in store.rows && store.rows[id].deleted
    ensures id !in After(store, Pulls(now)).rows <==> PullsAfter(Pulls(now), store.rows[id].updatedAt)
  {
    var doomed := Expired(store, now);
    assert id in doomed <==> PullsAfter(Pulls(now), store.rows[id].updatedAt);
    assert After(store, Pulls(now)).rows == store.rows - doomed;
  }

  /** The tombstone of a delete accepted at step `k` is kept, unless the item is written again, as
      long as no pull comes more than thirty days after the delete, and is gone from the first pull
      that does. */
  lemma {:induction false} TombstonesLastThirtyDays(stores: seq<Store>, steps: seq<LifeStep>, k: nat, n: nat,
                                                    id: ItemId, base: int, at: int)
    requires Life(stores, steps) && k < n <= |steps|
    requires steps[k] == Pushes(PendingOp.Delete(id, base), at) && WritesItem(stores[k], steps[k], id)
    requires forall m | k < m < n :: !WritesItem(stores[m], steps[m], id)
    ensures id in stores[n].rows <==> forall m | k < m < n :: !PullsAfter(steps[m], at)
    ensures id in stores[n].rows ==>
              stores[n].rows[id] == Row(base + 1, stores[k].syncSeq + 1, true, None, at)
    decreases n
  {
    assert MovesOn(stores, steps, n - 1);
    if k == n - 1 {
      AcceptedDelete(stores[k], id, base, at);
    } else {
      TombstonesLastThirtyDays(stores, steps, k, n - 1, id, base, at);
      var store, step := stores[n - 1], steps[n - 1];
      if id !in store.rows {
        NotWrittenIsNotThere(store, step, id);
      } else if step.Pulls? {
        PurgedExactly(store, id, step.now);
        if !PullsAfter(step, at) {
          OthersStay(store, step, id);
        }
      } else {
        OthersStay(store, step, id);
      }
    }
  }

  /** With a clock that does not go back: a pull within thirty days of the delete is answered by a
      store that still has the tombstone, and a later pull by one that has not. */
  lemma PullsFindTombstones(stores: seq<Store>, steps: seq<LifeStep>, k: nat, n: nat, id: ItemId, base: int, at: int)
    requires Life(stores, steps) && k < n < |steps| && steps[n].Pulls?
    requires steps[k] == Pushes(PendingOp.Delete(id, base), at) && WritesItem(stores[k], steps[k], id)
    requires forall m | k < m <= n :: !WritesItem(stores[m], steps[m], id)
    requires forall m | k < m < n && steps[m].Pulls? :: steps[m].now <= steps[n].now
    ensures id in stores[n + 1].rows <==> steps[n].now <= at + 30 * 24 * 60 * 60
  {
    TombstonesLastThirtyDays(stores, steps, k, n + 1, id, base, at);
    if steps[n].now <= at + 30 * 24 * 60 * 60 {
      assert forall m | k < m < n + 1 :: !PullsAfter(steps[m], at);
    } else {
      assert PullsAfter(steps[n], at);
    }
  }
}
