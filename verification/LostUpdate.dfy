/** No lost update: a write the server accepts replaces exactly what the writing device held of
    the item when it staged the write. */
module LostUpdate {
  import opened Wrappers
  import opened SyncTypes
  import opened MemoryVault
  import opened Engine
  import opened Rollback
  import opened ItemServer
  import opened Ledger
  import opened Replication
  import opened SyncSystem

  /** `item` is what the server once held as that revision of `id`. */
  predicate IsVersion(history: map<ItemId, seq<Version>>, id: ItemId, item: StoredItem) {
    && id in history
    && 1 <= item.revision <= |history[id]|
    && var version := history[id][item.revision - 1];
       version.revision == item.revision && version.deleted == item.deleted && version.content == item.content
  }

  predicate Gone(world: World, id: ItemId) {
    id in world.graves && id !in world.store.rows
  }

  predicate Known(world: World, id: ItemId, item: StoredItem) {
    1 <= item.revision && (IsVersion(world.history, id, item) || Gone(world, id))
  }

  /** The server has moved past a revision of `id` for good. */
  predicate Passed(world: World, id: ItemId, revision: int) {
    Gone(world, id) || CurrentRevision(world.store, id) > revision
  }

  /** The item was not created again after a purge of its id. */
  predicate NotRecreated(world: World, id: ItemId) {
    id in world.graves ==> id !in world.store.rows
  }

  // ---- The server's side

  lemma VersionStays(world: World, next: World, id: ItemId, item: StoredItem)
    requires Known(world, id, item) && NotRecreated(next, id) && next.graves == world.graves
    requires world.store.rows.Keys <= next.store.rows.Keys
    requires id in world.history && id in next.history && id in world.store.rows
    requires world.history[id] <= next.history[id]
    ensures Known(next, id, item)
  {
  }

  lemma PushKeepsKnown(world: World, op: PendingOp, now: int, id: ItemId, item: StoredItem)
    requires Valid(world) && Known(world, id, item)
    requires NotRecreated(PushWorld(world, op, now).0, id)
    ensures Known(PushWorld(world, op, now).0, id, item)
  {
    PushShape(world, op, now);
    if id in world.store.rows {
      VersionStays(world, PushWorld(world, op, now).0, id, item);
    }
  }

  lemma PushKeepsPassed(world: World, op: PendingOp, now: int, id: ItemId, revision: int)
    requires Valid(world) && Passed(world, id, revision)
    requires NotRecreated(PushWorld(world, op, now).0, id)
    ensures Passed(PushWorld(world, op, now).0, id, revision)
  {
    PushShape(world, op, now);
  }

  lemma PurgeKeepsPassed(world: World, doomed: set<ItemId>, id: ItemId, revision: int)
    requires doomed <= Tombstones(world.store) && 0 <= revision && Passed(world, id, revision)
    ensures Passed(PurgeWorld(world, doomed), id, revision)
  {
  }

  lemma WorldKeepsPassed(key: VaultKey, s: System, step: Step, s': System, id: ItemId, revision: int)
    requires Next(key, s, step, s') && Valid(s.world) && NotRecreated(s'.world, id)
    requires 0 <= revision && Passed(s.world, id, revision)
    ensures Passed(s'.world, id, revision)
  {
    WorldMoves(key, s, step, s');
    if s'.world != s.world {
      var move :| ServerNext(s.world, move, s'.world);
      match move {
        case Pushes(op, now) => PushKeepsPassed(s.world, op, now, id, revision);
        case Purges(doomed) => PurgeKeepsPassed(s.world, doomed, id, revision);
        case Stores(_) =>
      }
    }
  }

  lemma WorldKeepsKnown(key: VaultKey, s: System, step: Step, s': System, id: ItemId, item: StoredItem)
    requires Next(key, s, step, s') && Valid(s.world) && NotRecreated(s'.world, id)
    requires Known(s.world, id, item)
    ensures Known(s'.world, id, item)
  {
    WorldMoves(key, s, step, s');
    if s'.world != s.world {
      var move :| ServerNext(s.world, move, s'.world);
      if move.Pushes? {
        PushKeepsKnown(s.world, move.op, move.now, id, item);
      }
    }
  }

  /** A row is the last version of its item's history, at the index its revision says. */
  predicate IsNewest(world: World, id: ItemId)
    requires id in world.store.rows
  {
    var row := world.store.rows[id];
    && id in world.history && 1 <= row.revision == |world.history[id]|
    && world.history[id][row.revision - 1] == VersionOf(row)
  }

  lemma RowsAreNewest(world: World, id: ItemId)
    requires Valid(world) && id in world.store.rows
    ensures IsNewest(world, id)
  {
    assert RowValid(id, world.store.rows[id], world.store.syncSeq);
    assert ItemChained(world, id);
  }

  lemma NewestIsKnown(world: World, id: ItemId)
    requires id in world.store.rows && IsNewest(world, id)
    ensures Known(world, id, Stored(Remote(id, world.store.rows[id])))
  {
  }

  lemma RowIsKnown(world: World, id: ItemId)
    requires Valid(world) && id in world.store.rows
    ensures Known(world, id, Stored(Remote(id, world.store.rows[id])))
  {
    RowsAreNewest(world, id);
    NewestIsKnown(world, id);
  }

  // ---- The queued ops of one item

  /** A queued op and what the replica held of its item when it was staged. */
  datatype Link = Link(op: PendingOp, held: Option<StoredItem>)

  /** The queued ops of `id`, in queue order. */
  function LinksOf(queue: seq<PendingOp>, bases: seq<Option<StoredItem>>, id: ItemId): (links: seq<Link>)
    requires |bases| == |queue|
    ensures forall link <- links :: link.op.Item() == id
  {
    if queue == [] then []
    else
      (if queue[0].Item() == id then [Link(queue[0], bases[0])] else []) + LinksOf(queue[1..], bases[1..], id)
  }

  lemma {:induction false} LinksAppend(queue: seq<PendingOp>, bases: seq<Option<StoredItem>>, op: PendingOp,
                                       base: Option<StoredItem>, id: ItemId)
    requires |bases| == |queue|
    ensures LinksOf(queue + [op], bases + [base], id)
         == LinksOf(queue, bases, id) + if op.Item() == id then [Link(op, base)] else []
  {
    var more := if op.Item() == id then [Link(op, base)] else [];
    if queue == [] {
      assert (queue + [op])[1..] == [] && (bases + [base])[1..] == [];
      assert LinksOf([], [], id) + more == more == more + [];
    } else {
      var first := if queue[0].Item() == id then [Link(queue[0], bases[0])] else [];
      LinksAppend(queue[1..], bases[1..], op, base, id);
      assert (queue + [op])[1..] == queue[1..] + [op] && (bases + [base])[1..] == bases[1..] + [base];
      var rest := LinksOf(queue[1..], bases[1..], id);
      assert LinksOf(queue + [op], bases + [base], id) == first + (rest + more);
      assert first + (rest + more) == first + rest + more;
    }
  }

  lemma {:induction false} LinksWhenQueued(queue: seq<PendingOp>, bases: seq<Option<StoredItem>>, id: ItemId)
    requires |bases| == |queue|
    ensures LinksOf(queue, bases, id) != [] <==> id in Queued(queue)
  {
    if queue != [] {
      QueuedShrinks(queue);
      LinksWhenQueued(queue[1..], bases[1..], id);
    }
  }

  /** How the app builds an op on what the replica holds. */
  predicate Shaped(link: Link) {
    match link.held
    case None => Base(link.op) == 0 && link.op.Upsert?
    case Some(held) => Base(link.op) == held.revision && 1 <= held.revision
  }

  /** The first queued op stands on a version of the server's, unless the server is past it. */
  predicate HeadGrounded(world: World, id: ItemId, link: Link) {
    link.held.Some? ==>
      IsVersion(world.history, id, link.held.value) || Passed(world, id, link.held.value.revision)
  }

  /** An op behind another of its item stands on that one, or on something that will be overtaken
      once that one is accepted, or that one cannot be accepted any more. */
  predicate Follows(world: World, id: ItemId, before: PendingOp, link: Link) {
    link.held.Some? ==>
      || link.held.value == Staged(before)
      || link.held.value.revision <= Base(before)
      || Passed(world, id, Base(before) + 1)
  }

  /** What a replica holds of an item with queued ops has the body the last one gave it. */
  predicate HeldAs(world: World, id: ItemId, item: StoredItem, last: PendingOp) {
    && item.(revision := Base(last) + 1) == Staged(last)
    && 1 <= item.revision
    && (item.revision <= Base(last) + 1 || Passed(world, id, Base(last) + 1))
  }

  predicate LinksGrounded(world: World, id: ItemId, links: seq<Link>) {
    && (forall k | 0 <= k < |links| :: Shaped(links[k]))
    && (links != [] ==> HeadGrounded(world, id, links[0]))
    && (forall k | 0 < k < |links| :: Follows(world, id, links[k - 1].op, links[k]))
  }

  predicate Grounds(world: World, items: Items, id: ItemId, links: seq<Link>) {
    && LinksGrounded(world, id, links)
    && (id in items ==>
          if links == [] then Known(world, id, items[id])
          else HeldAs(world, id, items[id], links[|links| - 1].op))
  }

  // ---- What an accepted op replaces

  lemma HeadReplaces(world: World, id: ItemId, link: Link)
    requires Shaped(link) && HeadGrounded(world, id, link) && link.op.Item() == id
    requires Base(link.op) == CurrentRevision(world.store, id)
    requires id in world.store.rows ==> IsNewest(world, id)
    ensures Replaces(world.store, id, link.held)
  {
  }

  /** What a grounded op was staged on is what its acceptance replaces. */
  lemma AcceptedReplacesBase(world: World, id: ItemId, link: Link, now: int)
    requires Valid(world) && Shaped(link) && HeadGrounded(world, id, link) && link.op.Item() == id
    requires PushWorld(world, link.op, now).0 != world
    ensures Replaces(world.store, id, link.held)
  {
    EachWriteReplacesItsBase(world, link.op, now);
    if id in world.store.rows {
      RowsAreNewest(world, id);
    }
    HeadReplaces(world, id, link);
  }

  // ---- Staging

  lemma Stages(world: World, items: Items, id: ItemId, links: seq<Link>, op: PendingOp)
    requires Grounds(world, items, id, links) && BuiltOn(items, op) && op.Item() == id
    ensures Grounds(world, items[id := Staged(op)], id, links + [Link(op, Lookup(items, id))])
  {
    var link := Link(op, Lookup(items, id));
    var longer := links + [link];
    assert Shaped(link);
    forall k | 0 < k < |longer| ensures Follows(world, id, longer[k - 1].op, longer[k]) {
      if k == |links| {
        StagedFollows(world, items, id, links[k - 1].op, op);
      }
    }
  }

  lemma StagedFollows(world: World, items: Items, id: ItemId, last: PendingOp, op: PendingOp)
    requires id in items ==> HeldAs(world, id, items[id], last)
    ensures Follows(world, id, last, Link(op, Lookup(items, id)))
  {
  }

  // ---- The ruling on the first op

  /** A clean acceptance, at the revision the op would make. */
  predicate TakenAsStaged(op: PendingOp, outcome: PushOutcome) {
    outcome.Accepted? && outcome.revision == Base(op) + 1
  }

  /** After a clean acceptance the server holds exactly what was staged. */
  lemma TakenIsTheRow(world: World, op: PendingOp, now: int)
    requires Valid(world) && PushWorld(world, op, now).1.Pushed?
    requires TakenAsStaged(op, PushWorld(world, op, now).1.outcome)
    ensures var next, id := PushWorld(world, op, now).0, op.Item();
            id in next.store.rows && Stored(Remote(id, next.store.rows[id])) == Staged(op)
  {
    var id := op.Item();
    if id in world.store.rows {
      assert RowValid(id, world.store.rows[id], world.store.syncSeq);
    }
  }

  /** The op behind one that was taken as staged. */
  lemma NextGrounded(next: World, id: ItemId, before: PendingOp, link: Link)
    requires id in next.store.rows && IsNewest(next, id)
    requires Stored(Remote(id, next.store.rows[id])) == Staged(before)
    requires Follows(next, id, before, link) && before.Item() == id
    ensures HeadGrounded(next, id, link)
  {
    NewestIsKnown(next, id);
  }

  lemma HeldAfterTaking(next: World, id: ItemId, item: StoredItem, last: PendingOp, revision: int)
    requires HeldAs(next, id, item, last) && 1 <= revision
    requires id in next.store.rows && next.store.rows[id].revision == revision
    ensures HeldAs(next, id, item.(revision := revision), last)
  {
  }

  /** An op is taken as staged with others of its item behind it. */
  lemma TakingGrounds(world: World, next: World, items: Items, id: ItemId, links: seq<Link>, now: int)
    requires Valid(world) && |links| > 1 && Grounds(next, items, id, links) && links[0].op.Item() == id
    requires OwnIds(items) && next == PushWorld(world, links[0].op, now).0
    requires PushWorld(world, links[0].op, now).1.Pushed?
    requires TakenAsStaged(links[0].op, PushWorld(world, links[0].op, now).1.outcome)
    ensures Grounds(next, Ruled(items, links[0].op, PushWorld(world, links[0].op, now).1.outcome), id, links[1..])
  {
    var op, rest := links[0].op, links[1..];
    TakenIsTheRow(world, op, now);
    PushKeepsValid(world, op, now);
    assert Follows(next, id, links[0].op, links[1]) && Shaped(links[0]);
    RowsAreNewest(next, id);
    NextGrounded(next, id, op, links[1]);
    forall k | 0 < k < |rest| ensures Follows(next, id, rest[k - 1].op, rest[k]) {
      assert Follows(next, id, links[k].op, links[k + 1]);
    }
    if id in items {
      assert RowValid(id, next.store.rows[id], next.store.syncSeq);
      HeldAfterTaking(next, id, items[id], rest[|rest| - 1].op, Base(op) + 1);
    }
  }

  /** Once the server has ruled on an op that is the last of its item, the replica holds the
      server's row of it, if both hold one. */
  lemma RuledIsTheRow(world: World, items: Items, op: PendingOp, now: int)
    requires op.Item() in items ==> items[op.Item()].(revision := Base(op) + 1) == Staged(op)
    requires PushWorld(world, op, now).1.Pushed?
    requires op.Item() in world.store.rows ==> RowValid(op.Item(), world.store.rows[op.Item()], world.store.syncSeq)
    ensures var (next, answer) := PushWorld(world, op, now);
            var id, ruled := op.Item(), Ruled(items, op, answer.outcome);
            && (id in next.store.rows && id in ruled ==> ruled[id] == Stored(Remote(id, next.store.rows[id])))
            && (id !in next.store.rows ==>
                next == world && (op.Upsert? ==> Base(op) != 0)
                && (id in ruled ==> id in items && ruled[id].revision == items[id].revision))
  {
  }

  /** An op that is the last of its item is ruled on: the item is clean again. */
  lemma RulingGrounds(world: World, next: World, items: Items, id: ItemId, link: Link, now: int)
    requires Valid(world) && Grounds(next, items, id, [link]) && link.op.Item() == id
    requires next == PushWorld(world, link.op, now).0 && PushWorld(world, link.op, now).1.Pushed?
    ensures Grounds(next, Ruled(items, link.op, PushWorld(world, link.op, now).1.outcome), id, [])
  {
    if id in world.store.rows {
      assert RowValid(id, world.store.rows[id], world.store.syncSeq);
    }
    assert Shaped([link][0]) && HeadGrounded(next, id, [link][0]);
    RuledIsTheRow(world, items, link.op, now);
    PushKeepsValid(world, link.op, now);
    if id in next.store.rows {
      RowIsKnown(next, id);
    } else if link.held.Some? && IsVersion(next.history, id, link.held.value) {
      assert id in next.history;
    }
  }

  // ---- What the other devices do

  lemma HeadStays(key: VaultKey, s: System, step: Step, s': System, id: ItemId, link: Link)
    requires Next(key, s, step, s') && Valid(s.world) && NotRecreated(s'.world, id)
    requires Shaped(link) && HeadGrounded(s.world, id, link)
    ensures HeadGrounded(s'.world, id, link)
  {
    if link.held.Some? {
      if Passed(s.world, id, link.held.value.revision) {
        WorldKeepsPassed(key, s, step, s', id, link.held.value.revision);
      } else {
        WorldKeepsKnown(key, s, step, s', id, link.held.value);
      }
    }
  }

  lemma FollowsStays(key: VaultKey, s: System, step: Step, s': System, id: ItemId, before: Link, link: Link)
    requires Next(key, s, step, s') && Valid(s.world) && NotRecreated(s'.world, id)
    requires Shaped(before) && Follows(s.world, id, before.op, link)
    ensures Follows(s'.world, id, before.op, link)
  {
    if Passed(s.world, id, Base(before.op) + 1) {
      WorldKeepsPassed(key, s, step, s', id, Base(before.op) + 1);
    }
  }

  lemma ItemStays(key: VaultKey, s: System, step: Step, s': System, id: ItemId, item: StoredItem, links: seq<Link>)
    requires Next(key, s, step, s') && Valid(s.world) && NotRecreated(s'.world, id)
    requires forall k | 0 <= k < |links| :: Shaped(links[k])
    requires if links == [] then Known(s.world, id, item) else HeldAs(s.world, id, item, links[|links| - 1].op)
    ensures if links == [] then Known(s'.world, id, item) else HeldAs(s'.world, id, item, links[|links| - 1].op)
  {
    if links == [] {
      WorldKeepsKnown(key, s, step, s', id, item);
    } else {
      var last := links[|links| - 1];
      assert Shaped(last);
      if Passed(s.world, id, Base(last.op) + 1) {
        WorldKeepsPassed(key, s, step, s', id, Base(last.op) + 1);
      }
    }
  }

  lemma Frames(key: VaultKey, s: System, step: Step, s': System, items: Items, id: ItemId, links: seq<Link>)
    requires Next(key, s, step, s') && Valid(s.world) && NotRecreated(s'.world, id)
    requires Grounds(s.world, items, id, links)
    ensures Grounds(s'.world, items, id, links)
  {
    if links != [] {
      HeadStays(key, s, step, s', id, links[0]);
    }
    forall k | 0 < k < |links| ensures Follows(s'.world, id, links[k - 1].op, links[k]) {
      FollowsStays(key, s, step, s', id, links[k - 1], links[k]);
    }
    if id in items {
      ItemStays(key, s, step, s', id, items[id], links);
    }
  }

  // ---- One step of the device itself

  ghost predicate ItemGrounded(world: World, replica: Replica, bases: seq<Option<StoredItem>>, id: ItemId) {
    && |bases| == |replica.queue|
    && Grounds(world, replica.items, id, LinksOf(replica.queue, bases, id))
  }

  lemma StagingGrounds(world: World, replica: Replica, bases: seq<Option<StoredItem>>, op: PendingOp, id: ItemId)
    requires ItemGrounded(world, replica, bases, id) && BuiltOn(replica.items, op)
    ensures ItemGrounded(world, Stage(replica, op), bases + [Lookup(replica.items, op.Item())], id)
  {
    var links := LinksOf(replica.queue, bases, id);
    LinksAppend(replica.queue, bases, op, Lookup(replica.items, op.Item()), id);
    if op.Item() == id {
      Stages(world, replica.items, id, links, op);
    } else {
      assert links + [] == links;
    }
  }

  /** Merging a pull answer: a clean item becomes the server's, a dirty one stays or goes. */
  lemma MergeGrounds(world: World, replica: Replica, bases: seq<Option<StoredItem>>, since: int,
                     response: PullResponse, id: ItemId)
    requires Valid(world) && ItemGrounded(world, replica, bases, id) && IsDelta(world.store, since, response)
    ensures ItemGrounded(world, replica.(items := Merge(replica.items, response, Queued(replica.queue))), bases, id)
  {
    var dirty := Queued(replica.queue);
    LinksWhenQueued(replica.queue, bases, id);
    if id in dirty {
      DirtyIsSkipped(replica.items, world.store, since, response, dirty, id);
    } else {
      var base: Items := if response.fullResync then map[] else replica.items;
      ListingAt(base, world.store.rows, if response.fullResync then 0 else since, response.fullResync,
                response.items, dirty, id);
      if id in world.store.rows {
        RowIsKnown(world, id);
      }
    }
  }

  /** The front op leaves the queue. */
  lemma PushGrounds(world: World, next: World, replica: Replica, bases: seq<Option<StoredItem>>, now: int, id: ItemId)
    requires Valid(world) && OwnIds(replica.items) && replica.queue != []
    requires ItemGrounded(next, replica, bases, id) && next == PushWorld(world, replica.queue[0], now).0
    requires PushWorld(world, replica.queue[0], now).1.Pushed?
    requires replica.queue[0].Item() == id && id in Queued(replica.queue[1..]) ==>
               TakenAsStaged(replica.queue[0], PushWorld(world, replica.queue[0], now).1.outcome)
    ensures var outcome := PushWorld(world, replica.queue[0], now).1.outcome;
            ItemGrounded(next, replica.(items := Ruled(replica.items, replica.queue[0], outcome),
                                        queue := replica.queue[1..]), bases[1..], id)
  {
    var op, links := replica.queue[0], LinksOf(replica.queue, bases, id);
    var rest := LinksOf(replica.queue[1..], bases[1..], id);
    LinksWhenQueued(replica.queue[1..], bases[1..], id);
    if op.Item() != id {
      assert links == rest;
      RulingsAreItsOwn(world, op, now);
      RuledOthers(replica.items, op, PushWorld(world, op, now).1.outcome, id);
    } else {
      assert links == [Link(op, bases[0])] + rest;
      if rest == [] {
        assert links == [Link(op, bases[0])];
        RulingGrounds(world, next, replica.items, id, links[0], now);
      } else {
        assert links[1..] == rest;
        TakingGrounds(world, next, replica.items, id, links, now);
      }
    }
  }

  ghost predicate Grounded(world: World, device: Device, id: ItemId) {
    WellKept(world.store, device.cycle) && ItemGrounded(world, device.Held(), device.bases, id)
  }

  /** The device hears a ruling on an op of `id` while another op of `id` is queued behind it. */
  ghost predicate HearsWithMore(s: System, step: Step, id: ItemId) {
    && step.Exchange? && step.dev in s.devices && s.devices[step.dev].cycle.Busy()
    && CycleAsks(s.devices[step.dev].cycle).AskPush? && step.answer.Pushed?
    && var queue := s.devices[step.dev].Held().queue;
       queue != [] && queue[0].Item() == id && id in Queued(queue[1..])
  }

  /** No ruling breaks a chain: with more ops of the item to come, the front one is taken as
      staged. */
  ghost predicate ChainHolds(s: System, step: Step, id: ItemId) {
    HearsWithMore(s, step, id) ==> TakenAsStaged(s.devices[step.dev].Held().queue[0], step.answer.outcome)
  }

  lemma PulledGrounds(key: VaultKey, world: World, device: Device, response: PullResponse, id: ItemId)
    requires Valid(world) && Grounded(world, device, id) && device.cycle.Syncing?
    requires Asks(device.cycle.run).AskPull? && IsDelta(world.store, Asks(device.cycle.run).since, response)
    ensures ItemGrounded(world, React(key, device.cycle, Pulled(response)).Held(), device.bases, id)
    ensures React(key, device.cycle, Pulled(response)).Held().queue == device.Held().queue
  {
    var run := device.cycle.run;
    EngineHolds(key, device.cycle, Pulled(response));
    if run.progress.Tailing? {
      assert Queued(run.replica.queue) == {};
    }
    MergeGrounds(world, run.replica, device.bases, Asks(run).since, response, id);
  }

  lemma PushedGrounds(key: VaultKey, world: World, next: World, device: Device, now: int, id: ItemId)
    requires Valid(world) && device.cycle.Syncing? && device.cycle.run.progress.Pushing?
    requires WellKept(world.store, device.cycle) && ItemGrounded(next, device.Held(), device.bases, id)
    requires next == PushWorld(world, device.Held().queue[0], now).0
    requires var (queue, answer) := (device.Held().queue, PushWorld(world, device.Held().queue[0], now).1);
             answer.Pushed? && queue[0].Item() == id && id in Queued(queue[1..]) ==>
               TakenAsStaged(queue[0], answer.outcome)
    ensures var after := Reacted(key, device, PushWorld(world, device.Held().queue[0], now).1);
            ItemGrounded(next, after.Held(), after.bases, id)
  {
    var answer := PushWorld(world, device.Held().queue[0], now).1;
    EngineHolds(key, device.cycle, answer);
    if answer.Pushed? {
      PushGrounds(world, next, device.Held(), device.bases, now, id);
    }
  }

  lemma AnswerGrounds(key: VaultKey, s: System, step: Step, s': System, id: ItemId)
    requires Next(key, s, step, s') && step.Exchange? && Valid(s.world) && Valid(s'.world)
    requires ChainHolds(s, step, id)
    requires WellKept(s.world.store, s.devices[step.dev].cycle) && Grounded(s'.world, s.devices[step.dev], id)
    ensures ItemGrounded(s'.world, s'.devices[step.dev].Held(), s'.devices[step.dev].bases, id)
  {
    var device := s.devices[step.dev];
    if !device.cycle.Syncing? {
      OthersHold(key, device.cycle, step.answer);
    } else if device.cycle.run.progress.Pushing? {
      PushedGrounds(key, s.world, s'.world, device, step.now, id);
    } else {
      PulledGrounds(key, s'.world, device, step.answer.response, id);
    }
  }

  lemma StepGrounds(key: VaultKey, s: System, step: Step, s': System, dev: DeviceId, id: ItemId)
    requires Next(key, s, step, s') && Valid(s.world) && NotRecreated(s'.world, id)
    requires dev in s.devices ==> Grounded(s.world, s.devices[dev], id)
    requires dev == step.dev ==> ChainHolds(s, step, id)
    requires dev in s'.devices
    ensures Grounded(s'.world, s'.devices[dev], id)
  {
    StepKeepsDevice(key, s, step, s', dev);
    WorldKeeps(key, s, step, s');
    if dev in s.devices {
      var device := s.devices[dev];
      Frames(key, s, step, s', device.Held().items, id, LinksOf(device.Held().queue, device.bases, id));
      if dev == step.dev {
        match step {
          case StageOp(_, op) => StagingGrounds(s.world, device.Held(), device.bases, op, id);
          case Exchange(_, _, _, _) => AnswerGrounds(key, s, step, s', id);
          case AnswerLost(_, _, _, _, killed) => CutOffHolds(key, device.cycle, killed);
          case RequestLost(_, killed) => CutOffHolds(key, device.cycle, killed);
          case _ =>
        }
      }
    }
  }

  // ---- Whole runs

  /** Up to world `n`: with more ops of `id` queued behind, device `dev` heard only clean
      acceptances of its ops of `id`, and nobody had the server create `id` again after a purge.
      Other items, and the other devices' queues, are free. */
  ghost predicate CleanFor(trace: seq<System>, steps: seq<Step>, dev: DeviceId, id: ItemId, n: nat)
    requires |trace| == |steps| + 1
  {
    && (forall k | 0 <= k <= n && k < |trace| :: NotRecreated(trace[k].world, id))
    && (forall k | 0 <= k < n && k < |steps| :: ChainHoldsAt(trace, steps, dev, id, k))
  }

  ghost predicate ChainHoldsAt(trace: seq<System>, steps: seq<Step>, dev: DeviceId, id: ItemId, k: nat)
    requires |trace| == |steps| + 1 && k < |steps|
  {
    steps[k].dev == dev ==> ChainHolds(trace[k], steps[k], id)
  }

  lemma GroundedOnce(key: VaultKey, trace: seq<System>, steps: seq<Step>, k: nat, dev: DeviceId, id: ItemId)
    requires Execution(key, trace, steps) && k < |steps| && dev in trace[k + 1].devices
    requires ChainHoldsAt(trace, steps, dev, id, k) && NotRecreated(trace[k + 1].world, id)
    requires dev in trace[k].devices ==> Grounded(trace[k].world, trace[k].devices[dev], id)
    ensures Grounded(trace[k + 1].world, trace[k + 1].devices[dev], id)
  {
    WorldsValid(key, trace, steps, k);
    assert StepAt(key, trace, steps, k);
    StepGrounds(key, trace[k], steps[k], trace[k + 1], dev, id);
  }

  lemma {:induction false} AlwaysGrounded(key: VaultKey, trace: seq<System>, steps: seq<Step>, i: nat, dev: DeviceId,
                                          id: ItemId)
    requires Execution(key, trace, steps) && i < |trace| && CleanFor(trace, steps, dev, id, i)
    requires dev in trace[i].devices
    ensures Grounded(trace[i].world, trace[i].devices[dev], id)
  {
    if i > 0 {
      if dev in trace[i - 1].devices {
        AlwaysGrounded(key, trace, steps, i - 1, dev, id);
      }
      assert ChainHoldsAt(trace, steps, dev, id, i - 1) && NotRecreated(trace[i].world, id);
      GroundedOnce(key, trace, steps, i - 1, dev, id);
    }
  }

  /** At step `j` device `dev` staged `op`, holding `held` of the item just before. */
  ghost predicate StagedAt(trace: seq<System>, steps: seq<Step>, j: nat, dev: DeviceId, op: PendingOp,
                           held: Option<StoredItem>)
    requires |trace| == |steps| + 1
  {
    j < |steps| && steps[j] == StageOp(dev, op) && dev in trace[j].devices
    && held == Lookup(trace[j].devices[dev].Held().items, op.Item())
  }

  /** The queue of a device after one step. */
  lemma QueueAfterStep(key: VaultKey, s: System, step: Step, s': System, dev: DeviceId)
    requires Next(key, s, step, s') && dev in s.devices && dev in s'.devices
    requires InStep(s.world.store, s.devices[dev].cycle)
    requires |s.devices[dev].bases| == |s.devices[dev].Held().queue|
    ensures var (queue, bases) := (s.devices[dev].Held().queue, s.devices[dev].bases);
            var (queue', bases') := (s'.devices[dev].Held().queue, s'.devices[dev].bases);
            if step.StageOp? && step.dev == dev then
              queue' == queue + [step.op]
              && bases' == bases + [Lookup(s.devices[dev].Held().items, step.op.Item())]
            else
              || (queue' == queue && bases' == bases)
              || (queue != [] && queue' == queue[1..] && bases' == bases[1..])
  {
    if step.dev == dev {
      var cycle := s.devices[dev].cycle;
      match step {
        case Exchange(_, _, _, answer) =>
          if cycle.Syncing? {
            EngineHolds(key, cycle, answer);
          } else {
            OthersHold(key, cycle, answer);
          }
        case AnswerLost(_, _, _, _, killed) => CutOffHolds(key, cycle, killed);
        case RequestLost(_, killed) => CutOffHolds(key, cycle, killed);
        case _ =>
      }
    }
  }

  /** Every queued op was staged at some earlier step, on what its base records: in every run, with
      no side condition. */
  lemma {:induction false} QueuedOpsWereStaged(key: VaultKey, trace: seq<System>, steps: seq<Step>, i: nat,
                                               dev: DeviceId, k: nat)
    requires Execution(key, trace, steps) && i < |trace| && dev in trace[i].devices
    ensures |trace[i].devices[dev].bases| == |trace[i].devices[dev].Held().queue|
    ensures k < |trace[i].devices[dev].bases| ==>
              exists j: nat | j < i :: StagedAt(trace, steps, j, dev, trace[i].devices[dev].Held().queue[k],
                                                trace[i].devices[dev].bases[k])
  {
    if i > 0 {
      assert StepAt(key, trace, steps, i - 1);
      if dev in trace[i - 1].devices {
        QueuedOpsWereStaged(key, trace, steps, i - 1, dev, k);
        QueuedOpsWereStaged(key, trace, steps, i - 1, dev, k + 1);
        AlwaysWellKept(key, trace, steps, i - 1, dev);
        QueueAfterStep(key, trace[i - 1], steps[i - 1], trace[i], dev);
        StagedBefore(trace, steps, i, dev, k);
      }
    }
  }

  lemma StagedBefore(trace: seq<System>, steps: seq<Step>, i: nat, dev: DeviceId, k: nat)
    requires |trace| == |steps| + 1 && 0 < i < |trace| && dev in trace[i - 1].devices && dev in trace[i].devices
    requires var (before, after) := (trace[i - 1].devices[dev], trace[i].devices[dev]);
             && |before.bases| == |before.Held().queue|
             && (forall m | k <= m <= k + 1 && m < |before.bases| ::
                   exists j: nat | j < i - 1 :: StagedAt(trace, steps, j, dev, before.Held().queue[m], before.bases[m]))
             && (if steps[i - 1].StageOp? && steps[i - 1].dev == dev then
                   after.Held().queue == before.Held().queue + [steps[i - 1].op]
                   && after.bases == before.bases + [Lookup(before.Held().items, steps[i - 1].op.Item())]
                 else
                   || (after.Held().queue == before.Held().queue && after.bases == before.bases)
                   || (before.Held().queue != [] && after.Held().queue == before.Held().queue[1..]
                       && after.bases == before.bases[1..]))
    ensures var after := trace[i].devices[dev];
            && |after.bases| == |after.Held().queue|
            && (k < |after.bases| ==>
                exists j: nat | j < i :: StagedAt(trace, steps, j, dev, after.Held().queue[k], after.bases[k]))
  {
    var (before, after) := (trace[i - 1].devices[dev], trace[i].devices[dev]);
    if k < |after.bases| {
      if steps[i - 1].StageOp? && steps[i - 1].dev == dev && k == |before.bases| {
        assert StagedAt(trace, steps, i - 1, dev, after.Held().queue[k], after.bases[k]);
      } else {
        var m := if before.bases <= after.bases then k else k + 1;
        var j: nat :| j < i - 1 && StagedAt(trace, steps, j, dev, before.Held().queue[m], before.bases[m]);
        assert StagedAt(trace, steps, j, dev, after.Held().queue[k], after.bases[k]);
      }
    }
  }

  /** Step `i` is the server handling a push of device `dev`, whether or not the device hears. */
  ghost predicate PushesAt(s: System, step: Step, dev: DeviceId, op: PendingOp) {
    (step.Exchange? || step.AnswerLost?) && step.dev == dev && dev in s.devices
    && s.devices[dev].cycle.Busy() && CycleAsks(s.devices[dev].cycle) == AskPush(op)
  }

  lemma FrontLink(queue: seq<PendingOp>, bases: seq<Option<StoredItem>>)
    requires |bases| == |queue| && queue != []
    ensures var links := LinksOf(queue, bases, queue[0].Item());
            links != [] && links[0] == Link(queue[0], bases[0])
  {
  }

  /** No lost update. In every interleaving, chained edits included: whenever a push changes the
      store, the device staged the op at an earlier step while holding exactly what the push now
      replaces: revision, deletion and content, or nothing if the server held nothing. It takes
      only that so far this device heard no ruling but a clean acceptance on an op of the item with
      another behind it, and that the item was not created again after a purge. */
  lemma NothingIsLost(key: VaultKey, trace: seq<System>, steps: seq<Step>, i: nat, dev: DeviceId, op: PendingOp)
    requires Execution(key, trace, steps) && i < |steps| && CleanFor(trace, steps, dev, op.Item(), i)
    requires PushesAt(trace[i], steps[i], dev, op) && trace[i + 1].world != trace[i].world
    ensures exists j: nat, held | j < i ::
              StagedAt(trace, steps, j, dev, op, held) && Replaces(trace[i].world.store, op.Item(), held)
  {
    var s, step := trace[i], steps[i];
    assert StepAt(key, trace, steps, i);
    WorldsValid(key, trace, steps, i);
    AlwaysGrounded(key, trace, steps, i, dev, op.Item());
    QueuedOpsWereStaged(key, trace, steps, i, dev, 0);
    var device := s.devices[dev];
    FrontLink(device.Held().queue, device.bases);
    var link := LinksOf(device.Held().queue, device.bases, op.Item())[0];
    assert link.op == op && Shaped(link);
    AcceptedReplacesBase(s.world, op.Item(), link, step.now);
  }

  // ---- When chains hold by themselves

  /** No op of `id` is queued behind another. */
  predicate Unchained(queue: seq<PendingOp>, id: ItemId) {
    forall i, j | 0 <= i < j < |queue| && queue[i].Item() == id :: queue[j].Item() != id
  }

  predicate StagesOnce(s: System, step: Step, dev: DeviceId, id: ItemId) {
    step.dev == dev && step.StageOp? && step.op.Item() == id ==> OneOpPerItem(s, step)
  }

  lemma StaysUnchained(key: VaultKey, trace: seq<System>, steps: seq<Step>, k: nat, dev: DeviceId, id: ItemId)
    requires Execution(key, trace, steps) && k < |steps| && dev in trace[k].devices
    requires Unchained(trace[k].devices[dev].Held().queue, id) && StagesOnce(trace[k], steps[k], dev, id)
    ensures dev in trace[k + 1].devices && Unchained(trace[k + 1].devices[dev].Held().queue, id)
  {
    assert StepAt(key, trace, steps, k);
    QueuedOpsWereStaged(key, trace, steps, k, dev, 0);
    AlwaysWellKept(key, trace, steps, k, dev);
    QueueAfterStep(key, trace[k], steps[k], trace[k + 1], dev);
    var before, after := trace[k].devices[dev].Held().queue, trace[k + 1].devices[dev].Held().queue;
    if steps[k].StageOp? && steps[k].dev == dev {
      assert forall m | 0 <= m < |before| :: after[m] == before[m] && before[m].Item() in Queued(before);
    }
  }

  lemma {:induction false} AlwaysUnchained(key: VaultKey, trace: seq<System>, steps: seq<Step>, i: nat, dev: DeviceId,
                                           id: ItemId)
    requires Execution(key, trace, steps) && i < |trace| && dev in trace[i].devices
    requires forall k | 0 <= k < i :: StagesOnce(trace[k], steps[k], dev, id)
    ensures Unchained(trace[i].devices[dev].Held().queue, id)
  {
    if i > 0 {
      if dev in trace[i - 1].devices {
        AlwaysUnchained(key, trace, steps, i - 1, dev, id);
        StaysUnchained(key, trace, steps, i - 1, dev, id);
      } else {
        assert StepAt(key, trace, steps, i - 1);
      }
    }
  }

  /** A device that stages an op of the item only while none is queued has no chain to break, so
      it loses no update whatever it hears. */
  lemma OneAtATimeLosesNothing(key: VaultKey, trace: seq<System>, steps: seq<Step>, i: nat, dev: DeviceId, op: PendingOp)
    requires Execution(key, trace, steps) && i < |steps|
    requires forall k | 0 <= k < i :: StagesOnce(trace[k], steps[k], dev, op.Item())
    requires forall k | 0 <= k <= i :: NotRecreated(trace[k].world, op.Item())
    requires PushesAt(trace[i], steps[i], dev, op) && trace[i + 1].world != trace[i].world
    ensures exists j: nat, held | j < i ::
              StagedAt(trace, steps, j, dev, op, held) && Replaces(trace[i].world.store, op.Item(), held)
  {
    forall k | 0 <= k < i ensures ChainHoldsAt(trace, steps, dev, op.Item(), k) {
      if steps[k].dev == dev && dev in trace[k].devices {
        AlwaysUnchained(key, trace, steps, k, dev, op.Item());
        assert !HearsWithMore(trace[k], steps[k], op.Item()) by {
          var queue := trace[k].devices[dev].Held().queue;
          if queue != [] && queue[0].Item() == op.Item() {
            assert forall m | 0 <= m < |queue[1..]| :: queue[1..][m] == queue[m + 1];
          }
        }
      }
    }
    NothingIsLost(key, trace, steps, i, dev, op);
  }

  /** `held` is exactly what the store holds of `id`. */
  predicate Replaces(store: Store, id: ItemId, held: Option<StoredItem>) {
    match held
    case None => id !in store.rows
    case Some(item) =>
      id in store.rows && item.revision == store.rows[id].revision
      && item.deleted == store.rows[id].deleted && item.content == store.rows[id].content
  }
}
