/** The server's item store (server/vault-server/src/routes/items.rs), for one account. */
module ItemServer {
  import opened Wrappers
  import opened SyncTypes

  const TOMBSTONE_TTL_SECS: int := 30 * 24 * 3600
  const MAX_CONTENT_BYTES: int := 512 * 1024
  const MAX_REVISION: int := 0x7FFF_FFFF_FFFF_FFFF
  const TAG_LEN := 32

  datatype Row =
    Row(revision: int, seqNo: int, deleted: bool, content: Option<Envelope>, updatedAt: int)

  /** One account's rows, sequence counter, purge horizon and checkpoint. */
  datatype Store =
    Store(rows: map<ItemId, Row>, syncSeq: int, purgedBefore: int, checkpoint: Option<Checkpoint>)

  const EMPTY_STORE := Store(map[], 0, 0, None)

  function Remote(id: ItemId, row: Row): RemoteItem {
    RemoteItem(id, row.revision, row.seqNo, row.deleted, row.content)
  }

  function CurrentState(store: Store, id: ItemId): Option<RemoteItem> {
    if id in store.rows then Some(Remote(id, store.rows[id])) else None
  }

  // ---- Purge and listing

  function Tombstones(store: Store): set<ItemId> {
    set id | id in store.rows && store.rows[id].deleted
  }

  function Expired(store: Store, now: int): (ids: set<ItemId>)
    ensures ids <= Tombstones(store)
  {
    set id | id in store.rows && store.rows[id].deleted && store.rows[id].updatedAt < now - TOMBSTONE_TTL_SECS
  }

  /** The largest sequence number among the rows of `ids`. */
  ghost function MaxSeq(rows: map<ItemId, Row>, ids: set<ItemId>): (max: int)
    requires ids != {} && ids <= rows.Keys
    ensures forall id <- ids :: rows[id].seqNo <= max
    ensures exists id <- ids :: rows[id].seqNo == max
  {
    var id :| id in ids;
    if ids == {id} then rows[id].seqNo
    else
      var rest := MaxSeq(rows, ids - {id});
      if rest < rows[id].seqNo then rows[id].seqNo else rest
  }

  /** Drops the rows in `doomed` and raises the horizon to the newest of them. */
  ghost function Purge(store: Store, doomed: set<ItemId>): Store
    requires doomed <= store.rows.Keys
  {
    if doomed == {} then store
    else
      var newest := MaxSeq(store.rows, doomed);
      store.(rows := store.rows - doomed,
             purgedBefore := if store.purgedBefore < newest then newest else store.purgedBefore)
  }

  /** `items` lists, in order of sequence number, exactly the rows written after `since`,
      without tombstones if `liveOnly`. */
  ghost predicate IsListing(rows: map<ItemId, Row>, since: int, liveOnly: bool, items: seq<RemoteItem>) {
    && (forall i, j | 0 <= i < j < |items| :: items[i].seqNo < items[j].seqNo)
    && (forall i | 0 <= i < |items| ::
          && items[i].itemId in rows
          && items[i] == Remote(items[i].itemId, rows[items[i].itemId])
          && Listed(rows[items[i].itemId], since, liveOnly))
    && (forall id | id in rows && Listed(rows[id], since, liveOnly) :: id in Ids(items))
  }

  function Ids(items: seq<RemoteItem>): set<ItemId> {
    set i | 0 <= i < |items| :: items[i].itemId
  }

  lemma IdsAppend(items: seq<RemoteItem>, item: RemoteItem)
    ensures Ids(items + [item]) == Ids(items) + {item.itemId}
  {
    var longer := items + [item];
    forall id <- Ids(items) + {item.itemId}
      ensures id in Ids(longer)
    {
      if id == item.itemId {
        assert longer[|items|].itemId == id;
      } else {
        var i :| 0 <= i < |items| && items[i].itemId == id;
        assert longer[i].itemId == id;
      }
    }
  }

  predicate Listed(row: Row, since: int, liveOnly: bool) {
    row.seqNo > since && !(liveOnly && row.deleted)
  }

  predicate BehindHorizon(store: Store, since: int) {
    0 < since < store.purgedBefore
  }

  /** What a delta pull may answer: the order is fixed by the sequence numbers, so for distinct
      ones there is only one such response. */
  ghost predicate IsDelta(store: Store, since: int, response: PullResponse) {
    && response.latestSeq == store.syncSeq
    && response.fullResync == BehindHorizon(store, since)
    && IsListing(store.rows, if response.fullResync then 0 else since, response.fullResync, response.items)
  }

  // ---- Writes

  function CurrentRevision(store: Store, id: ItemId): int {
    if id in store.rows then store.rows[id].revision else 0
  }

  function Write(store: Store, id: ItemId, revision: int, content: Option<Envelope>, now: int): Store {
    var seqNo := store.syncSeq + 1;
    store.(rows := store.rows[id := Row(revision, seqNo, content.None?, content, now)], syncSeq := seqNo)
  }

  function ApplyPut(store: Store, envelope: Envelope, now: int): (Store, Result<PushOutcome, TransportError>) {
    if envelope.revision == 0 || envelope.revision > MAX_REVISION || envelope.size > MAX_CONTENT_BYTES
    then (store, Err(Rejected))
    else if envelope.revision != CurrentRevision(store, envelope.itemId) + 1 then
      (store, Ok(Conflict(CurrentState(store, envelope.itemId))))
    else
      var next := Write(store, envelope.itemId, envelope.revision, Some(envelope), now);
      (next, Ok(Accepted(envelope.revision, next.syncSeq)))
  }

  /** The reply to a delete carries no sequence number, which the client reads as 0, and the
      client reads "not found" as a conflict without server state. */
  function ApplyDelete(store: Store, id: ItemId, base: int, now: int): (Store, PushOutcome) {
    if id !in store.rows then (store, Conflict(None))
    else if store.rows[id].deleted then (store, Accepted(store.rows[id].revision, 0))
    else if base != store.rows[id].revision then (store, Conflict(CurrentState(store, id)))
    else (Write(store, id, base + 1, None, now), Accepted(base + 1, 0))
  }

  function ApplyPush(store: Store, op: PendingOp, now: int): (Store, Answer) {
    match op
    case Upsert(envelope) =>
      var (next, reply) := ApplyPut(store, envelope, now);
      (next, match reply case Ok(outcome) => Pushed(outcome) case Err(error) => Failed(error))
    case Delete(target, base) =>
      var (next, outcome) := ApplyDelete(store, target, base, now);
      (next, Pushed(outcome))
  }

  // ---- Checkpoint

  predicate TagFits(tag: Tag) {
    tag.Bytes? ==> |tag.raw| == TAG_LEN
  }

  /** Only a higher checkpoint is kept, and only with a tag of the right length. */
  function PutCheckpoint(store: Store, checkpoint: Checkpoint): Store {
    if TagFits(checkpoint.tag) && (store.checkpoint.None? || store.checkpoint.value.seqNo < checkpoint.seqNo)
    then store.(checkpoint := Some(checkpoint))
    else store
  }

  /** No two rows carry the same sequence number, and none is ahead of the counter. */
  ghost predicate SeqsDistinct(store: Store) {
    && (forall id | id in store.rows :: store.rows[id].seqNo <= store.syncSeq)
    && (forall a, b | a in store.rows && b in store.rows && store.rows[a].seqNo == store.rows[b].seqNo :: a == b)
  }

  class Server {
    var rows: map<ItemId, Row>
    var syncSeq: int
    var purgedBefore: int
    var checkpoint: Option<Checkpoint>

    constructor ()
      ensures State() == EMPTY_STORE
    {
      rows, syncSeq, purgedBefore, checkpoint := map[], 0, 0, None;
    }

    function State(): Store
      reads this
    {
      Store(rows, syncSeq, purgedBefore, checkpoint)
    }

    method NextSeq() returns (seqNo: int)
      modifies this`syncSeq
      ensures syncSeq == old(syncSeq) + 1 == seqNo
    {
      syncSeq := syncSeq + 1;
      seqNo := syncSeq;
    }

    method PurgeExpired(now: int)
      modifies this`rows, this`purgedBefore
      ensures State() == Purge(old(State()), Expired(old(State()), now))
    {
      var doomed := Expired(State(), now);
      if doomed != {} {
        var newest := NewestOf(doomed);
        rows := rows - doomed;
        if purgedBefore < newest {
          purgedBefore := newest;
        }
      }
    }

    method NewestOf(ids: set<ItemId>) returns (max: int)
      requires ids != {} && ids <= rows.Keys
      ensures max == MaxSeq(rows, ids)
    {
      var first :| first in ids;
      max := rows[first].seqNo;
      var rest := ids - {first};
      while rest != {}
        invariant rest <= ids - {first}
        invariant forall id <- ids - rest :: rows[id].seqNo <= max
        invariant exists id <- ids :: rows[id].seqNo == max
        decreases rest
      {
        var id :| id in rest;
        if max < rows[id].seqNo {
          max := rows[id].seqNo;
        }
        rest := rest - {id};
      }
    }

    /** Lists the matching rows, each time taking the one with the lowest sequence number. */
    method Select(since: int, liveOnly: bool) returns (items: seq<RemoteItem>)
      requires SeqsDistinct(State())
      ensures IsListing(rows, since, liveOnly, items)
    {
      var left := set id | id in rows && Listed(rows[id], since, liveOnly);
      ghost var all := left;
      items := [];
      while left != {}
        invariant left <= all
        invariant forall i, j | 0 <= i < j < |items| :: items[i].seqNo < items[j].seqNo
        invariant forall i | 0 <= i < |items| ::
                    items[i].itemId in all && items[i] == Remote(items[i].itemId, rows[items[i].itemId])
        invariant Ids(items) == all - left
        invariant forall i, id | 0 <= i < |items| && id in left :: items[i].seqNo < rows[id].seqNo
        decreases left
      {
        var id := Lowest(left);
        IdsAppend(items, Remote(id, rows[id]));
        items := items + [Remote(id, rows[id])];
        left := left - {id};
      }
    }

    method Lowest(ids: set<ItemId>) returns (lowest: ItemId)
      requires ids != {} && ids <= rows.Keys && SeqsDistinct(State())
      ensures lowest in ids
      ensures forall id <- ids - {lowest} :: rows[lowest].seqNo < rows[id].seqNo
    {
      lowest :| lowest in ids;
      var rest := ids - {lowest};
      while rest != {}
        invariant rest <= ids && lowest in ids - rest
        invariant forall id <- ids - rest :: rows[lowest].seqNo <= rows[id].seqNo
        decreases rest
      {
        var id :| id in rest;
        if rows[id].seqNo < rows[lowest].seqNo {
          lowest := id;
        }
        rest := rest - {id};
      }
    }

    /** The reply also carries the stored checkpoint, which the sync client reads by its own
        request instead. */
    method ListItems(since: int, now: int) returns (response: PullResponse, stored: Option<Checkpoint>)
      requires SeqsDistinct(State())
      modifies this`rows, this`purgedBefore
      ensures State() == Purge(old(State()), Expired(old(State()), now))
      ensures IsDelta(State(), since, response)
      ensures stored == checkpoint
    {
      PurgeExpired(now);
      var fullResync := 0 < since && since < purgedBefore;
      var items := Select(if fullResync then 0 else since, fullResync);
      return PullResponse(items, syncSeq, fullResync), checkpoint;
    }

    method PutItem(path: ItemId, envelope: Envelope, now: int) returns (reply: Result<PushOutcome, TransportError>)
      modifies this`rows, this`syncSeq
      ensures (State(), reply) ==
              if envelope.itemId != path then (old(State()), Err(Rejected))
              else ApplyPut(old(State()), envelope, now)
    {
      if envelope.itemId != path {
        return Err(Rejected);
      }
      if envelope.revision == 0 || envelope.revision > MAX_REVISION {
        return Err(Rejected);
      }
      if envelope.size > MAX_CONTENT_BYTES {
        return Err(Rejected);
      }
      var id := envelope.itemId;
      var current := if id in rows then rows[id].revision else 0;
      if envelope.revision != current + 1 {
        return Ok(Conflict(CurrentState(State(), id)));
      }
      var seqNo := NextSeq();
      rows := rows[id := Row(envelope.revision, seqNo, false, Some(envelope), now)];
      return Ok(Accepted(envelope.revision, seqNo));
    }

    method DeleteItem(id: ItemId, base: int, now: int) returns (outcome: PushOutcome)
      modifies this`rows, this`syncSeq
      ensures (State(), outcome) == ApplyDelete(old(State()), id, base, now)
    {
      if id !in rows {
        return Conflict(None);
      }
      var row := rows[id];
      if row.deleted {
        return Accepted(row.revision, 0);
      }
      if base != row.revision {
        return Conflict(CurrentState(State(), id));
      }
      var seqNo := NextSeq();
      rows := rows[id := Row(row.revision + 1, seqNo, true, None, now)];
      return Accepted(row.revision + 1, 0);
    }

    method StoreCheckpoint(offered: Checkpoint) returns (ok: bool)
      modifies this`checkpoint
      ensures ok == TagFits(offered.tag)
      ensures State() == PutCheckpoint(old(State()), offered)
    {
      if !TagFits(offered.tag) {
        return false;
      }
      if checkpoint.None? || checkpoint.value.seqNo < offered.seqNo {
        checkpoint := Some(offered);
      }
      return true;
    }
  }
}
