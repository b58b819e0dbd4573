/** The reference replica (core/vault-sync/src/memory.rs): items, op queue and cursor. */
module MemoryVault {
  import opened Wrappers
  import opened SyncTypes

  /** The replica as a value; the class below holds the same three fields. */
  datatype Replica =
    Replica(items: map<ItemId, StoredItem>, queue: seq<PendingOp>, lastSeq: int)

  function Stored(item: RemoteItem): StoredItem {
    StoredItem(item.itemId, item.revision, item.deleted, item.content)
  }

  /** What staging an op writes into the replica before anything is sent. */
  function Staged(op: PendingOp): StoredItem {
    match op
    case Upsert(envelope) => StoredItem(envelope.itemId, envelope.revision, false, Some(envelope))
    case Delete(target, base) => StoredItem(target, base + 1, true, None)
  }

  function Stage(replica: Replica, op: PendingOp): Replica {
    replica.(items := replica.items[op.Item() := Staged(op)], queue := replica.queue + [op])
  }

  class Vault {
    var items: map<ItemId, StoredItem>
    var queue: seq<PendingOp>
    var lastSeq: int

    constructor ()
      ensures State() == Replica(map[], [], 0)
    {
      items, queue, lastSeq := map[], [], 0;
    }

    function State(): Replica
      reads this
    {
      Replica(items, queue, lastSeq)
    }

    method SetLastSeq(seqNo: int)
      modifies this`lastSeq
      ensures State() == old(State()).(lastSeq := seqNo)
    {
      lastSeq := seqNo;
    }

    method Get(id: ItemId) returns (item: Option<StoredItem>)
      ensures item == if id in items then Some(items[id]) else None
    {
      if id in items {
        return Some(items[id]);
      }
      return None;
    }

    method ApplyRemote(item: RemoteItem)
      modifies this`items
      ensures State() == old(State()).(items := old(items)[item.itemId := Stored(item)])
    {
      items := items[item.itemId := Stored(item)];
    }

    method ClearItems()
      modifies this`items
      ensures State() == old(State()).(items := map[])
    {
      items := map[];
    }

    method StageOp(op: PendingOp)
      modifies this`items, this`queue
      ensures State() == Stage(old(State()), op)
    {
      match op {
        case Upsert(envelope) =>
          items := items[envelope.itemId :=
                         StoredItem(envelope.itemId, envelope.revision, false, Some(envelope))];
        case Delete(target, base) =>
          items := items[target := StoredItem(target, base + 1, true, None)];
      }
      queue := queue + [op];
    }

    method PopFrontOp()
      modifies this`queue
      ensures State() == old(State()).(queue := if old(queue) == [] then [] else old(queue)[1..])
    {
      if queue != [] {
        queue := queue[1..];
      }
    }
  }
}
