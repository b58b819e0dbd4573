/** Data exchanged between a device and the sync server (core/vault-sync/src/types.rs). */
module SyncTypes {
  import opened Wrappers

  type ItemId = string

  /** An `EncryptedItem`: `size` is the length of its serialized form, `payload` stands for
      the version, nonce and ciphertext, which neither side of the protocol inspects. */
  datatype Envelope = Envelope(itemId: ItemId, revision: nat, size: nat, payload: string)

  datatype RemoteItem =
    RemoteItem(itemId: ItemId, revision: int, seqNo: int, deleted: bool, content: Option<Envelope>)

  datatype StoredItem =
    StoredItem(itemId: ItemId, revision: int, deleted: bool, content: Option<Envelope>)

  datatype PullResponse = PullResponse(items: seq<RemoteItem>, latestSeq: int, fullResync: bool)

  datatype PendingOp =
    | Upsert(envelope: Envelope)
    | Delete(target: ItemId, baseRevision: int)
  {
    function Item(): ItemId {
      match this
      case Upsert(envelope) => envelope.itemId
      case Delete(target, _) => target
    }
  }

  datatype PushOutcome =
    | Accepted(revision: int, seqNo: int)
    | Conflict(current: Option<RemoteItem>)

  /** A local change that lost against newer server state. */
  datatype LostOp = LostOp(itemId: ItemId, losingOp: PendingOp, serverState: Option<RemoteItem>)

  datatype SyncReport =
    SyncReport(pulled: nat, pushed: nat, conflicts: seq<LostOp>, didFullResync: bool)

  const EMPTY_REPORT := SyncReport(0, 0, [], false)

  datatype TransportError = Network | Rejected

  datatype EngineError =
    | Transport(error: TransportError)
    | RollbackDetected(localSeq: int, serverSeq: int)

  /** Vault keys and checkpoint tags are symbolic: a tag made from a key and a sequence
      number verifies under exactly that pair, and `Bytes` is any other byte string. */
  datatype VaultKey = VaultKey(id: nat)

  datatype Tag = Mac(key: VaultKey, seqNo: int) | Bytes(raw: string)

  datatype Checkpoint = Checkpoint(seqNo: int, tag: Tag)

  /** Everything a device can ask the server during one protected sync. */
  datatype Request =
    | AskCheckpoint
    | AskPull(since: int)
    | AskPush(op: PendingOp)
    | Publish(checkpoint: Checkpoint)

  /** What the transport hands back. */
  datatype Answer =
    | CheckpointIs(stored: Option<Checkpoint>)
    | Pulled(response: PullResponse)
    | Pushed(outcome: PushOutcome)
    | Done
    | Failed(error: TransportError)

  /** The item ids that have a queued local change. */
  function Queued(queue: seq<PendingOp>): (ids: set<ItemId>)
    ensures forall op <- queue :: op.Item() in ids
    ensures forall id <- ids :: exists k :: 0 <= k < |queue| && queue[k].Item() == id
  {
    set k | 0 <= k < |queue| :: queue[k].Item()
  }
}
