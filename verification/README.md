# Basementen Vault: verified model

Basementen Vault is an end-to-end encrypted password manager: devices keep replicas of an
account's items and sync them through a server that holds only ciphertext. This project models
the parts of it whose correctness depends on more than one function, and proves what they keep.

**Sync.** `SyncTypes`, `MemoryVault` and `Engine` are the client: the replica, the op queue and the
loop that pulls, merges, pushes and pulls again. `Engine.Sync` is that loop; it is proved to compute
a fold of one-answer reactions (`Deliver`) over whatever the transport answers, and to send exactly
the requests the fold asks for. `Rollback` wraps it in the authenticated checkpoint in the same way.
`EngineSafety` and `RollbackSafety` hold for every server. `ItemServer` is the honest server, with
`Retention` on how long it keeps tombstones; `Ledger` adds its past (purged ids and every version of
every item), which only proofs read. `SyncSystem` puts any number of devices and the server
together, one transport call to a step, with devices cut off at any call and any tombstones purged
at any pull. `Replication`, `Convergence`, `LostUpdate` and `FalseAlarm` are the theorems about its
runs, each for one device and what it did so far, with every other device free. `SyncLimits` says
where they stop: `SyncPlays` builds whole runs step by step, and each side condition has a run that
breaks the guarantee without it.

**Recovery Kit.** `Numbers` and `Base32` prove the bit-packing loops against plain arithmetic: a
byte string is one base-256 number, its encoding that number's base-32 digits, and the 32-bit
accumulator the number modulo 2^32. `RecoveryCode` builds the printer and the parser on them.

**Record formats and keys.** `Padding` is the bucket schedule and the padded layout,
`AssociatedData` the three associated-data formats as real bytes, and `KeyChain` the key hierarchy,
envelopes, items and account flows with symbolic cryptography: a derived key is its derivation, a
ciphertext its sealing, and random draws are parameters.

**Sessions and recovery.** `Sessions` is the session table and `AccountRecovery` the recovery
requests, run together; each handler is one step, as its statements run in the handler.

**Throttles and one-time codes.** `RateLimit`, `Lockout` and `OneTimeCodes`. A TOTP call is two
steps, its read and its guarded update, interleaved with any other calls.

## Where the code and its documentation differ

The model follows the code.

- core/vault-sync/src/engine.rs:30-31 and 75-78 say that an interrupted sync simply re-runs
  because every step is idempotent. An op that is pushed again conflicts with itself, and with
  another op of its item behind it that does harm: a device may go on showing an item that the
  server has deleted, after a sync that succeeds (`ChainedDeleteDiverges`), or bring an old version
  back and overwrite the newer (`LostAnswerLosesUpdate`). `Converges` needs no more than that no
  delete is staged behind a queued op of its item and that pulls from 0 meet no leftovers.
- core/vault-sync/src/types.rs:60-61 says not to drop a losing op on the floor; a sync that ends in
  an error drops every op that had lost before it (`ErrorsLoseConflicts`).
- server/vault-server/src/routes/auth.rs:321-322 says that replaying a rotated refresh token
  revokes every session of the account; the code revokes the token's family and spares the
  account's other logins (`ReplayKillsExactly`, `ReplaySparesOtherLogins`).
- server/vault-server/src/routes/auth.rs:238-239 calls purged rows beyond any reuse-detection
  value; `PurgeForgetsReuse` is a run in which the family of a purged, rotated token is still alive
  and the replay goes unnoticed.
- docs/CRYPTOGRAPHIC_INVARIANTS.md:279 describes one fixed 256-byte bucket; the code's schedule is
  graduated.

Chained edits of one item converge, and lose no update as long as each is cleanly accepted before
the next (`NothingIsLost`); behind a conflict one is lost (`ChainedEditsLoseUpdate`). Convergence
holds even when purged ids are created again; the no-lost-update theorem does not
(`RecreationLosesUpdate`). At cursor 0 the server never asks for a resync, and a pull from 0 is
right exactly for items that are not live leftovers of something purged (`DeltaSettles`);
`LeftoverDiverges` is a run that reaches one, and `LeftoversNeedAPurge` says when there are none.
An alarm against an honest server comes exactly at a checkpoint answer below the cursor, and only
after a publish of that device was lost (`AlarmsExactly`, `AlarmsNeedALostPublish`).

## Model

| member | source | states |
|---|---|---|
| MemoryVault.Vault.ApplyRemote | core/vault-sync/src/memory.rs:40-50 | a remote item replaces the stored one; queue and cursor stay |
| MemoryVault.Vault.StageOp | core/vault-sync/src/memory.rs:56-85 | staging writes the item as it will be and appends the op |
| MemoryVault.Vault.PopFrontOp | core/vault-sync/src/memory.rs:91-93 | the oldest op leaves; nothing else changes |
| MemoryVault.Vault.ClearItems | core/vault-sync/src/memory.rs:52-54 | items go; queue and cursor stay |
| Engine.MergePulled | core/vault-sync/src/engine.rs:66-72 | pulled items are applied in order except those with queued ops, and counted |
| Engine.Settled | core/vault-sync/src/engine.rs:88-127 | an accepted op fixes the local revision, a conflict adopts the server's state and is reported, and the op is popped |
| Engine.PushQueue | core/vault-sync/src/engine.rs:79-128 | the loop ends with the queue empty or on a transport error, having sent exactly the requests and made exactly the changes of the reaction machine |
| Engine.PullTail | core/vault-sync/src/engine.rs:134-151 | the tail pull alone moves the cursor, guards it, and applies items unless told to resync |
| Engine.PullFirst | core/vault-sync/src/engine.rs:36-72 | a regressing first pull aborts with nothing touched; a resync clears items first and keeps the queue |
| Engine.Sync | core/vault-sync/src/engine.rs:32-152 | for every transport: end state, result, requests sent and answers consumed are those of the reaction machine |
| EngineSafety.CursorIsSafe | core/vault-sync/src/engine.rs:37-51 | for every server the cursor never decreases, moves only on success, and a failed or regressing first pull leaves items, queue and cursor unchanged |
| EngineSafety.OutcomeExactly | core/vault-sync/src/engine.rs:32-152 | every outcome, for every server, read off the answers: a rollback exactly when the first pull is below the cursor or the tail pull below the first, with those numbers; a transport error exactly at the first answer that is none to what was asked; success otherwise |
| EngineSafety.RequestsExactly | core/vault-sync/src/engine.rs:37-134 | every request, for every server: a pull from the cursor, the queued ops in order as long as each is ruled on, and a pull from where the first ended |
| EngineSafety.ReportsFirstPull | core/vault-sync/src/engine.rs:52-72 | the report says whether the first pull was a full resync and counts the pulled items that no queued op kept back |
| EngineSafety.OpsAreConserved | core/vault-sync/src/engine.rs:74-128 | for every server the remaining queue is a suffix, each removed op was ruled on, and accepted ops and reported conflicts merge in order to the removed prefix; on success to the whole queue |
| EngineSafety.ErrorsLoseConflicts | core/vault-sync/src/engine.rs:79-152 | for every server and exit each queued op is accepted, still queued, reported lost, or gone untold; ops are gone untold exactly when the sync ends in an error after some op conflicted, and then all that had conflicted are |
| EngineSafety.ConflictVanishes | core/vault-sync/src/engine.rs:103-134 | an edit that conflicts just before the network fails is neither queued nor reported nor in the replica |
| EngineSafety.PushPhaseCursor | core/vault-sync/src/engine.rs:74-151 | a sync past its first pull succeeds exactly when every queued op is ruled on and the tail pull does not regress; the cursor it leaves |
| Rollback.VerifyStored | apps/desktop-core/src/rollback.rs:39-61 | a forged checkpoint and an authentic one below the cursor stop the sync before any pull |
| Rollback.Synchronize | apps/desktop-core/src/rollback.rs:32-84 | for every transport: end state, result and requests are those of the protected machine |
| Rollback.EngineWithin | apps/desktop-core/src/rollback.rs:63-83 | a protected sync past its checkpoint is the engine's sync followed by the withholding check and the publish |
| RollbackSafety.ProtectedSyncIsSafe | apps/desktop-core/src/rollback.rs:32-84 | for every server: no decrease of the cursor, success reaches floor, first pull and verified checkpoint, refused starts change nothing, and withholding is reported exactly when a successful engine run ends short of the checkpoint |
| RollbackSafety.AlarmsOfAnyServer | apps/desktop-core/src/rollback.rs:39-74 | for every server: forgery is reported exactly for a stored checkpoint without the key's own tag, a rollback exactly for a checkpoint or a first pull below the cursor or a tail pull below the first, with those numbers |
| RollbackSafety.PublishesWhatItReached | apps/desktop-core/src/rollback.rs:76-83 | a successful sync publishes its cursor, sealed, exactly when it passed the stored checkpoint |
| ItemServer.Server.PurgeExpired | server/vault-server/src/routes/items.rs:79-103 | expired tombstones go and the horizon rises to the newest of them |
| ItemServer.Server.Select | server/vault-server/src/routes/items.rs:124-139 | lists exactly the rows after `since`, in order, without tombstones on a resync |
| ItemServer.Server.ListItems | server/vault-server/src/routes/items.rs:71-156 | purges, then answers a delta or, behind the horizon, the full live state, along with the stored checkpoint |
| Retention.TombstonesLastThirtyDays | server/vault-server/src/routes/items.rs:79-103 | over every life of the store whose pulls purge by their own clocks: the tombstone of a delete accepted at a time is kept, unless written again, exactly as long as no pull comes more than thirty days after it |
| Retention.PullsFindTombstones | server/vault-server/src/routes/items.rs:79-103 | with a clock that does not go back, a pull is answered by a store that still has the tombstone exactly within thirty days of the delete |
| Retention.LiveItemsStay | server/vault-server/src/routes/items.rs:79-103 | a live item stays exactly as it is until it is written, whatever is pulled |
| ItemServer.Server.PutItem | server/vault-server/src/routes/items.rs:224-286 | refuses a path or revision or size that does not fit; else writes exactly when the revision is the successor of the current one, under a new sequence number; else reports the current state |
| ItemServer.Server.DeleteItem | server/vault-server/src/routes/items.rs:295-350 | missing rows, repeated deletes, stale bases and the tombstone written otherwise |
| ItemServer.Server.StoreCheckpoint | server/vault-server/src/routes/items.rs:192-218 | a tag of the wrong length is refused; the stored checkpoint is replaced only by a higher one |
| Ledger.PurgeKeepsValid | server/vault-server/src/routes/items.rs:79-103 | purging any tombstones keeps sequence numbers distinct, histories gap-free, and every purged number at most the horizon, at most the counter |
| Ledger.PushKeepsValid | server/vault-server/src/routes/items.rs:247-341 | so does every push |
| Ledger.EachWriteReplacesItsBase | server/vault-server/src/routes/items.rs:247-341 | a write that changes the store replaces exactly the revision its op was built on, as the next link of the item's chain, and touches no other item |
| Replication.DeltaSettles | server/vault-server/src/routes/items.rs:119-139 | a delta brings a clean item to agreement if and only if it is not, at cursor 0, a live leftover of something purged |
| Replication.StaysUpTo | server/vault-server/src/routes/items.rs:79-139 | whatever the server does after a replica agreed with it, the next delta or a resync makes up for |
| Replication.DeltaSuffices | server/vault-server/src/routes/items.rs:71-156 | over every server life: a replica that showed the server's items, updated with one delta, shows them again, whatever was written and purged between |
| Replication.AgreementIsSameView | core/vault-sync/src/types.rs:109-138 | agreeing on every id is showing the same live items |
| SyncSystem.WorldKeeps | server/vault-server/src/routes/items.rs:71-341 | every step of the whole system keeps the server valid and its counter and horizon rising |
| SyncSystem.WorldKeepsUpTo | server/vault-server/src/routes/items.rs:71-341 | whatever a step of the system does to the server, the next delta or a resync makes up for |
| SyncSystem.AlwaysWellKept | core/vault-sync/src/engine.rs:37-151 | in every reachable state each device's cursor, last pull and the server's counter are in order and its items are stored under their own ids; no side condition |
| Convergence.FirstPull | core/vault-sync/src/engine.rs:39-72 | the first pull brings every clean item to agreement and leaves a dirty one with its deletes in order |
| Convergence.RuledItemRight | core/vault-sync/src/engine.rs:88-126 | the server's ruling leaves the op's item right up to the first pull, whatever the op, unless it is a delete of an item the replica shows |
| Convergence.TailPull | core/vault-sync/src/engine.rs:130-149 | a delta tail brings full agreement; a resync tail leaves the cursor behind the horizon |
| Convergence.AlwaysRight | core/vault-sync/src/engine.rs:32-152 | a device that so far staged no delete behind a queued op of its item, and met no leftovers at 0, is right up to the last pull it applied; other devices may do anything |
| Convergence.Converges | core/vault-sync/src/engine.rs:32-152 | in every interleaving, a sync of such a device that succeeds leaves an empty queue and exactly the server's live items, or a cursor behind the horizon; what others do, and what it does later, is free |
| Convergence.NextPullRebuilds | core/vault-sync/src/engine.rs:142-149 | after a resync tail of such a device its next pull, whenever it comes, is answered with the full state |
| Convergence.LeftoversNeedAPurge | server/vault-server/src/routes/items.rs:119-122 | a device holding only staged items, or a right device of a server that never purged, meets the cursor-0 condition |
| LostUpdate.AcceptedReplacesBase | server/vault-server/src/routes/items.rs:256-277 | an accepted op that stands on a version of the server's replaces exactly what was held when it was staged |
| LostUpdate.QueuedOpsWereStaged | apps/desktop/src-tauri/src/lib.rs:499-535 | in every run, with no side condition, every queued op was staged earlier, on what is recorded as its base |
| LostUpdate.NothingIsLost | server/vault-server/src/routes/items.rs:247-341 | in every interleaving, chained edits included, a push that changes the store was staged by its device while holding exactly the revision, deletion and content it replaces, if that device so far heard only clean acceptances on ops of the item with another behind, and the id was not created again after a purge; all else is free |
| LostUpdate.OneAtATimeLosesNothing | server/vault-server/src/routes/items.rs:247-341 | the same, whatever the device hears, if it staged an op of the item only while none was queued |
| FalseAlarm.NoFalseAlarm | apps/desktop-core/src/rollback.rs:32-84 | in every interleaving, a device none of whose publishes was lost before it reached the server is never in a forgery, rollback or withholding alarm, and the stored checkpoint covers its cursor; answers to publishes, and other devices' publishes, may be lost |
| FalseAlarm.AlwaysGuarded | apps/desktop-core/src/rollback.rs:32-84 | in every run, publishes lost or not: the stored tag matches, checkpoint and cursors are at most the counter, and a running sync stays between them |
| FalseAlarm.AlarmsExactly | apps/desktop-core/src/rollback.rs:39-61 | in every run a step raises an alarm on a device exactly if it answers its checkpoint request with a stored checkpoint below its cursor; no engine or withholding step ever does |
| FalseAlarm.AlarmsNeedALostPublish | apps/desktop-core/src/rollback.rs:76-81 | every alarm of an honest run comes after a publish of the same device was lost on its way |
| SyncLimits.ChainedDeleteDiverges | core/vault-sync/src/engine.rs:79-128 | a run of one device, with two lost answers and no purge: an item created and deleted before the first sync stays on show after a sync that succeeds, though the server has deleted it |
| SyncLimits.LeftoverDiverges | server/vault-server/src/routes/items.rs:119-122 | a run, one op for an item at a time: a sync from cursor 0 succeeds and shows an item that was deleted and purged elsewhere |
| SyncLimits.ChainedEditsLoseUpdate | core/vault-sync/src/engine.rs:103-127 | a run of two devices, nothing purged and no answer lost: the first of two queued edits conflicts and the second is accepted over the other device's edit, which its author never held |
| SyncLimits.ChainedEditsOverwriteExactly | server/vault-server/src/routes/items.rs:256-277 | at the server: after the first of two chained edits conflicted, the second is accepted, and replaces the row, exactly if the server stands at the revision the first would have made |
| SyncLimits.LostAnswerLosesUpdate | core/vault-sync/src/engine.rs:88-127 | a run of one device and one lost answer: a creation that is pushed again conflicts with itself and brings its old version back, the edit behind it is accepted, and the user's next edit overwrites that one unseen |
| SyncLimits.ZeroCursorExactly | server/vault-server/src/routes/items.rs:119-122 | a sync from cursor 0 with nothing queued and nothing else running converges exactly if every live item of the replica is one the server knows |
| SyncLimits.RecreationLosesUpdate | server/vault-server/src/routes/items.rs:256-257 | a run of three devices, one op for an item at a time: a resync makes one forget a purged item, it saves the item anew, and an edit queued on the old one is accepted over content its author never held |
| SyncLimits.LostPublishAlarms | apps/desktop-core/src/rollback.rs:76-81 | a run of one device and an honest server in which a lost publish makes the next sync report a rollback |
| Base32.ExtractSeesThrough | core/vault-core/src/recovery.rs:32-38 | the bits a u32 drops never reach the field the loops read |
| Base32.EncodeBase32 | core/vault-core/src/recovery.rs:27-43 | for byte strings of every length the loops compute the base-32 digits of the zero-padded number |
| Base32.DecodeBase32 | core/vault-core/src/recovery.rs:59-85 | for every text the loop computes the base-256 digits of the number spelled, or the first of its three errors |
| Base32.DecodeCharFinds | core/vault-core/src/recovery.rs:45-57 | a character decodes to a place exactly when, folded, it stands there in the alphabet |
| Base32.CharactersRead | core/vault-core/src/recovery.rs:45-57 | letter by letter: the alphabet as itself, lower case as upper, O as 0, I and L as 1, nothing else |
| Base32.RegroupedNumber | core/vault-core/src/recovery.rs:27-43 | the quintets are worth the bytes' number shifted by the padding |
| Base32.DecodesExactly | core/vault-core/src/recovery.rs:59-85 | the texts that decode to given bytes, all of them: the encoding up to folding and, at lengths with slack, the encoding with a zero appended |
| Base32.RefusesExactly | core/vault-core/src/recovery.rs:59-85 | which error a text gets: its first unreadable character; padding, if it does not decode even at its own length; its length, if it does |
| Base32.RoundTrip | core/vault-core/src/recovery.rs:27-85 | decoding an encoding returns the bytes, at every length |
| Base32.InjectiveExactly | core/vault-core/src/recovery.rs:70-78 | decoding at a length is injective up to folding if and only if the length leaves 2 or 4 modulo 5 |
| RecoveryCode.ToRecoveryCode | core/vault-core/src/recovery.rs:89-104 | prints the prefix and hyphenated groups of five |
| RecoveryCode.FromRecoveryCode | core/vault-core/src/recovery.rs:109-144 | parses as specified: separators, prefix, body, checksum, each with its error |
| RecoveryCode.ParsesExactly | core/vault-core/src/recovery.rs:89-144 | a text parses to a key if and only if, cleaned and folded, it is that key's printed code without hyphens |
| RecoveryCode.PrintThenParse | core/vault-core/src/recovery.rs:89-144 | printing then parsing is the identity, for every checksum function |
| RecoveryCode.WritingDoesNotMatter | core/vault-core/src/recovery.rs:45-52 | a code reads the same with either case of any letter, O for 0, and I or L for 1, at any place, up to which bad character an error names |
| RecoveryCode.SeparatorsDoNotMatter | core/vault-core/src/recovery.rs:110-113 | any of the twenty-five white-space characters or a hyphen may stand anywhere |
| RecoveryCode.RefusesExactly | core/vault-core/src/recovery.rs:116-143 | which error a text gets that is no code: no prefix, what is wrong with the body, or a checksum that is not its key's |
| RecoveryCode.CodesAreUnambiguous | core/vault-core/src/recovery.rs:109-144 | accepted texts give the same key exactly when they are the same up to separators and folding |
| Padding.BucketsHold | core/vault-core/src/item.rs:36-44 | a bucket is a multiple of 256 holding the total with less than max(256, total/16) to spare |
| Padding.BucketsAreMonotone | core/vault-core/src/item.rs:36-44 | a larger total never gets a smaller bucket |
| Padding.BucketsAreFixed | core/vault-core/src/item.rs:36-44 | a bucket's own bucket is itself |
| Padding.OctaveHasSixteen | core/vault-core/src/item.rs:36-44 | totals above 2^m and up to 2^(m+1) share at most sixteen lengths |
| Padding.FewLengths | core/vault-core/src/item.rs:36-44 | totals up to 2^m have at most 1 + 16(m - 8) lengths |
| Padding.PadPlaintext | core/vault-core/src/item.rs:49-59 | length prefix, plaintext, zeros up to the bucket; refused above the 32-bit range |
| Padding.PaddedIs | core/vault-core/src/item.rs:49-59 | the padded plaintext byte by byte: length, prefix, plaintext, zeros |
| Padding.UnpadsExactly | core/vault-core/src/item.rs:63-75 | unpadding gives a plaintext if and only if the buffer starts with its prefix and itself, whatever follows |
| Padding.PadThenUnpad | core/vault-core/src/item.rs:49-75 | unpadding inverts padding |
| AssociatedData.ItemAadIsInjective | core/vault-core/src/item.rs:95-108 | item associated data determines version, identifier of any length, and revision |
| AssociatedData.WrapAadIsInjective | core/vault-core/src/envelope.rs:23-50 | wrap associated data determines version and purpose |
| AssociatedData.ExportAadIsInjective | core/vault-core/src/export.rs:28-33 | export associated data determines the version |
| AssociatedData.FormatsAreApart | core/vault-core/src/item.rs:95-108 | no byte string is the associated data of two of the formats |
| KeyChain.PasswordUnlocksExactly | core/vault-core/src/account.rs:101-129 | the password in force, and no other, unlocks and authenticates, and it opens the original Vault Key |
| KeyChain.KitRecoversExactly | core/vault-core/src/account.rs:142-152 | a typed code recovers the account if and only if, up to separators, case and ambiguous characters, it is the newest kit's and the new parameters are acceptable |
| KeyChain.RegisteredIsIntact | core/vault-core/src/account.rs:65-97 | registration succeeds exactly for acceptable parameters and establishes the invariant |
| KeyChain.DerivesExactly | core/vault-core/src/kdf.rs:62-126 | a key is derived exactly from parameters between floor and ceiling and a long enough salt; an unknown version is named |
| KeyChain.ChangesExactly | core/vault-core/src/account.rs:162-174 | a password change needs exactly acceptable parameters and a sixteen-byte salt, which it keeps with the Vault Key |
| KeyChain.RecoveryRefusesExactly | core/vault-core/src/account.rs:142-152 | what stops a recovery, in order, with its error |
| KeyChain.StepTakesEffect | core/vault-core/src/account.rs:131-174 | a password change or recovery of an intact account takes effect exactly with acceptable parameters and, for a recovery, the newest kit's code; sealing adds exactly its own record; nothing else changes anything |
| KeyChain.SealedItemsOpen | core/vault-core/src/item.rs:119-177 | v1 and padded v2 records decrypt to exactly what was sealed |
| KeyChain.Continuity | core/vault-core/src/account.rs:131-174 | after any run of password changes, recoveries and sealings the current password opens the original key under the original salt, every record decrypts, and no earlier kit is the newest one |
| KeyChain.SpentKitsStaySpent | core/vault-core/src/account.rs:131-152 | a replaced kit never recovers the account again, however it is typed |
| KeyChain.OpensOnlyAsSealed | core/vault-core/src/item.rs:155-177 | a record opens only under its key, version, identifier and revision |
| KeyChain.FormatsDoNotMix | core/vault-core/src/envelope.rs:72-98 | a wrapped key never opens as an item, nor an item as a wrapped key, nor one purpose's wrap as the other's |
| KeyChain.UnwrapsExactly | core/vault-core/src/envelope.rs:72-98 | the only blobs that open are those that wrapping makes under the same key for the same purpose; the errors of the others |
| KeyChain.DecryptsExactly | core/vault-core/src/item.rs:155-177 | the only records that decrypt, and to what: version 1 as sealed, version 2 from any padding |
| Sessions.SessionTable.Login | server/vault-server/src/routes/auth.rs:232-257 | the account's lapsed rows go and a new family's first row comes |
| Sessions.SessionTable.Refresh | server/vault-server/src/routes/auth.rs:323-407 | the four answers and what each does to the table; a row without a cap gets one |
| Sessions.SessionTable.Logout | server/vault-server/src/routes/auth.rs:410-420 | the caller's row is revoked |
| Sessions.SessionTable.Revoke | server/vault-server/src/routes/sessions.rs:71-91 | the live rows of the caller's named family are revoked, or nothing is found |
| Sessions.SessionTable.RevokeOthers | server/vault-server/src/routes/sessions.rs:94-110 | the account's other families are revoked and counted |
| Sessions.AlwaysSound | server/vault-server/src/routes/auth.rs:198-420 | in every run, from any table the cap's migration may have found, a family has at most one live row, and all its rows carry its login time and its one cap |
| Sessions.RefreshSucceedsOnce | server/vault-server/src/routes/auth.rs:323-407 | no refresh token succeeds twice in any run |
| Sessions.ReplayKillsExactly | server/vault-server/src/routes/auth.rs:355-376 | replaying a spent token kills its family and changes no other row if its row is still stored, and does nothing if not |
| Sessions.ReplaySparesOtherLogins | server/vault-server/src/routes/auth.rs:355-376 | an account with two logins in which a replay kills the one and leaves the other working |
| Sessions.ReplayKillsForGood | server/vault-server/src/routes/auth.rs:355-376 | after a replay no token of the family, old or new, ever authenticates or refreshes |
| Sessions.PurgeForgetsReuse | server/vault-server/src/routes/auth.rs:238-244 | a run in which a login's purge hides a replay and the family lives on |
| Sessions.NinetyDays | server/vault-server/src/state.rs:137-150 | no token authenticates or refreshes at or after its login plus 90 days, or, for logins older than the cap, at or after 120 days from when the cap came |
| Sessions.LegacyIsFixed | server/vault-server/src/routes/auth.rs:383-384 | the logins older than the cap are those of the first table and none later |
| Sessions.TokensLapse | server/vault-server/src/routes/auth.rs:10-14 | in every run an access token works for at most 15 minutes from its draw and a refresh token for at most 30 days |
| Sessions.RotationHandsOver | server/vault-server/src/routes/auth.rs:383-400 | after a rotation the new pair works exactly until it lapses or the family's cap comes, for the same account and family, and the old pair is dead |
| Sessions.LoginOpens | server/vault-server/src/routes/auth.rs:232-257 | a login's tokens work for exactly their lifetimes, and of the stored rows it removes exactly the account's whose thirty days are over |
| Sessions.RefusedRefreshChangesNothing | server/vault-server/src/routes/auth.rs:346-381 | a refresh that is unknown or too late changes nothing |
| Sessions.EndAllEnds | server/vault-server/src/routes/recovery.rs:353-358 | a completed recovery kills every family of the account and touches no other |
| Sessions.LogoutEnds | server/vault-server/src/routes/auth.rs:410-420 | a logout kills the caller's family and touches no other row |
| Sessions.RevokeEnds | server/vault-server/src/routes/sessions.rs:71-91 | revoking a device kills the named family if it is the caller's account's, does nothing if it is not, and touches no row of another family |
| Sessions.RevocationsCount | server/vault-server/src/routes/sessions.rs:77-110 | a device is found exactly if its family is the account's and alive, and the others counted are the account's other live families, each once |
| Sessions.EndedForGood | server/vault-server/src/routes/auth.rs:410-420 | after a logout or a revocation no token of the family, old or new, ever works again |
| Sessions.OthersEnd | server/vault-server/src/routes/recovery.rs:721-731 | a password change kills the account's other families and leaves the caller's alone |
| Sessions.AccountsAreApart | server/vault-server/src/routes/sessions.rs:77-105 | one account's requests never touch another's sessions |
| AccountRecovery.RecoveryDesk.Start | server/vault-server/src/routes/recovery.rs:41-91 | a limited address is turned away and every other start counts against it; an existing account's pending request is superseded by a new one; anyone else changes nothing |
| AccountRecovery.RecoveryDesk.Complete | server/vault-server/src/routes/recovery.rs:261-364 | every answer in the handler's order, all tables after it, and what counts against the address |
| AccountRecovery.RecoveryDesk.Cancel | server/vault-server/src/routes/recovery.rs:403-422 | exactly a pending request is cancelled |
| AccountRecovery.AlwaysTidy | server/vault-server/src/routes/recovery.rs:65-91 | in every run an account has at most one pending request, and requests keep their window |
| AccountRecovery.PendingExactly | server/vault-server/src/routes/recovery.rs:65-91 | in every run a request is pending exactly while nothing has closed it since the start that drew it, with that start's account and time |
| AccountRecovery.NeverCompletedAfterClosing | server/vault-server/src/routes/recovery.rs:153-173 | a request that was completed, cancelled or superseded is never completed |
| AccountRecovery.CompletesInWindow | server/vault-server/src/routes/recovery.rs:261-282 | a completion falls within the seven days after the cooling-off that its start began |
| AccountRecovery.HoldsLastGift | server/vault-server/src/routes/recovery.rs:304-352 | in every run, from any accounts without verifiers, an account's bundle and verifier are those that one handler gave it together, the last to give it any; before that it has no verifier and keeps the bundle it came with |
| AccountRecovery.CompletesExactly | server/vault-server/src/routes/recovery.rs:261-327 | in every run a completion preserves the data exactly if its request was started within the window and not closed since and it presents the verifier last given to the account; it loses the data exactly if the request stands so, no verifier is presented and `wipe` is set |
| AccountRecovery.RefusesExactly | server/vault-server/src/routes/recovery.rs:153-327 | in every run, every other answer of a completion, from the starts, closings and last gift: unusable token, cooling-off and its rest, wrong verifier, incomplete request |
| AccountRecovery.OnlyAWipeErases | server/vault-server/src/routes/recovery.rs:329-335 | of all steps only a completion without a verifier and with `wipe` erases items, exactly its account's; storing adds one; nothing else changes any |
| AccountRecovery.CompletionEndsSessions | server/vault-server/src/routes/recovery.rs:353-358 | no session from before a completion is ever valid again |
| AccountRecovery.PasswordChangeEndsOthers | server/vault-server/src/routes/recovery.rs:721-731 | after a password change no other session of the account is ever valid again, and the caller's own still is |
| RateLimit.IpLimiter.Check | server/vault-server/src/rate_limit.rs:23-37 | the answer is the verdict on the recent times; the map is pruned |
| RateLimit.IpLimiter.RecordFailure | server/vault-server/src/rate_limit.rs:39-46 | one time is added after the collection |
| RateLimit.ChecksTheFullLog | server/vault-server/src/rate_limit.rs:23-46 | after any run with a clock that does not go back, a check answers what the complete unpruned history says |
| RateLimit.LimitsExactly | server/vault-server/src/rate_limit.rs:23-37 | an address is limited exactly with twenty failures in fifteen minutes, stays so for the seconds it is told, and then one failure less counts |
| RateLimit.KeepsExactly | server/vault-server/src/rate_limit.rs:23-46 | what a check and a record keep: recent times only, no empty entries, and above ten thousand addresses none without a recent failure |
| RateLimit.BudgetHolds | server/vault-server/src/rate_limit.rs:13-46 | if every record follows an admitting check at the same time, no address has more than 20 failures in any 15 minutes |
| Lockout.DurationIs | server/vault-server/src/security.rs:113-119 | the lockout doubles from a minute at the tenth failure up to an hour |
| Lockout.Account.Login | server/vault-server/src/routes/auth.rs:90-147 | the outcome and the counter after each kind of attempt |
| Lockout.AnsweredExactly | server/vault-server/src/routes/auth.rs:90-147 | after any history, every answer of a login: locked exactly from the tenth failure in a row on, while the lock lasts, with the rest of it; else by the credentials |
| Lockout.CounterIsStreak | server/vault-server/src/routes/auth.rs:34-54 | the stored counter and lock are those of the failures since the last success |
| Lockout.CounterCounts | server/vault-server/src/routes/auth.rs:34-54 | without a success the stored counter is the number of failed attempts |
| Lockout.FailuresAreSpaced | server/vault-server/src/routes/auth.rs:34-66 | with no success, failed attempt n >= 16 comes at least 3780 + 3600(n - 16) seconds after the first |
| Lockout.FewFailures | server/vault-server/src/routes/auth.rs:90-98 | any T seconds from the first failure hold at most 16 + T/3600 failed attempts |
| Lockout.ImpatientFails | server/vault-server/src/routes/auth.rs:90-98 | a schedule that meets the spacing bound with equality is let through |
| OneTimeCodes.VerifyStep | server/vault-server/src/totp.rs:72-91 | the loop finds the latest of the three windows whose code was submitted |
| OneTimeCodes.MatchesExactly | server/vault-server/src/totp.rs:72-91 | a step is matched exactly if it is the latest within one of the clock's whose code was submitted; none exactly if there is none |
| OneTimeCodes.BlanksDoNotMatter | server/vault-server/src/totp.rs:73-76 | six digits with blanks around them are read as those digits |
| OneTimeCodes.OnlyDigitsAreAccepted | server/vault-server/src/totp.rs:73-76 | no other text is accepted |
| OneTimeCodes.MatchedIsNear | server/vault-server/src/totp.rs:60-91 | a matched step is within one of the clock's, and its code is what was submitted |
| OneTimeCodes.TotpRow.Consume | server/vault-server/src/routes/mfa.rs:97-131 | an uninterrupted call succeeds exactly for a matched step newer than the last, which it records; with no active row it fails and writes nothing |
| OneTimeCodes.GoodCodeIsTaken | server/vault-server/src/routes/mfa.rs:97-131 | an account that has used no step so late takes a good code and records its step |
| OneTimeCodes.UninterruptedCall | server/vault-server/src/routes/mfa.rs:97-131 | reading and updating back to back is that call |
| OneTimeCodes.UpdateEndsCall | server/vault-server/src/routes/mfa.rs:118-130 | an update ends its call for the winner and the loser, and a loser changes nothing else |
| OneTimeCodes.StepsAreUsedOnce | server/vault-server/src/routes/mfa.rs:97-131 | in every interleaving the steps of successful calls strictly increase, each within one of its call's clock, and the row holds the last |
| OneTimeCodes.OneWinnerPerStep | server/vault-server/src/routes/mfa.rs:118-130 | of calls that matched the same step at most one succeeds |

## Left out

- 64-bit limits: sequence numbers and clocks are unbounded, and padded totals near the machine's word size are not modelled.
- Serialization: items that fail to parse as JSON, base64 and HTTP status handling; an answer of the wrong shape counts as rejected.
- conflict_response: the server reads the conflicting row again after its transaction; the model answers from the state the write was refused in.
- Clock-based purge in runs: a pull may purge any set of tombstones, which covers the 30-day rule; `ItemServer.Server.PurgeExpired` has the rule itself.
- LocalVault::list and its sorting; SqliteVault, which matches the reference replica only on intact storage.
- Account wipe as a step of the sync system: it changes the vault key under a kept checkpoint.
- Notification streams, mails, device names, the "new device" alert and the session list.
- Real cryptography, and everything probabilistic about it: that random keys, tokens and nonces do not repeat is an assumption on runs; that a mistyped code fails its checksum is not stated.
- Interleavings inside refresh, login, start and complete, which read before they write; each is one step.
- The IP limiter's place inside login. In runs of recovery requests, a request it turns away is no step.
- TOTP enrolment: a new secret resets the last used step, so the one-time property is per enrolment. One-time use in confirm_sensitive, which verifies without consuming.
- Registration and item storage on the account server, beyond what a recovery changes: `Registers` and `Stores` only set a bundle and verifier and add an item.
- The reset of the lockout counter by a completed recovery or a password change.
- Timing, constant-time comparison, zeroization and page locking.
- Export files beyond their associated data; password strength, generators, vault health, tags and CSV import.
- Bitwise operations: `|` of disjoint fields is modelled as addition, shifts and masks as division and remainder by powers of two, and u32 truncation as remainder by 2^32.
- EncryptItemV1: older clients' unpadded records are sealed in the model as the repository's own tests seal them.
