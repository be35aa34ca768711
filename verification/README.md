# Verified model of the MessagingSystem services

This project models the parts of MessagingSystem where ordering, hashing and crash
recovery matter, and proves what they promise over every input and every run:

* the **audit log**: per-scope hash chains of events, Merkle checkpoints over them, signed
  and linked, with inclusion proofs and exported anchors
  (`Hashing`, `KeyIds`, `Rows`, `MerkleTree`, `EventChain`, `AuditLog`, `Anchors`, `Checkpointing`,
  `AuditRuns`, `AuditStore`, `Backfill`);
* the **broker projection**: memberships become RabbitMQ queue bindings through generations
  and outbox commands that workers apply late, twice or half
  (`BrokerBindings`, `BrokerReuse`, `BrokerService`), and the life of an outbox row
  (`OutboxLifecycle`);
* **realtime delivery** against cached membership generations (`Delivery`), lease-based
  **presence** (`Presence`), the process-local **rate limiter** (`RateLimit`), and
  **sequence numbers and sync cursors** (`MessageSync`);
* **encrypted storage**: the upload file format, the re-chunking store loop, and the
  migration and rotation of messages and uploads across crashes (`UploadFormat`,
  `UploadStore`, `Maintenance`, `UploadRotation`, `MessageRotation`).

## How to read it

Functions, datatypes and state machines are values; objects the source updates in place are
classes whose methods say what the new state is. A protocol is a datatype of steps with
`Enabled`, `Apply`, an `Invariant` and lemmas over whole runs (`Legal`, `After`); each step
is one transaction, one Redis script or one broker operation, with the locks the code takes
expressed as enabling conditions.

Foreign code appears as parameters with explicit laws:

* SHA-256 is any function from bytes to 32 bytes. "Binding" results therefore say *equal, or
  here is a collision*: `CollisionBetween` names two different inputs with one digest, drawn
  from the finite sets of inputs the two computations hash.
* Canonical JSON is an injective encoding of typed records (`JsonInjective`); Ed25519
  verifies what it signed (`SignaturesVerify`).
* AES-GCM (`Ring.Lawful`) opens exactly what was sealed and adds 16 bytes; Fernet
  (`Crypto.Lawful`) decrypts what it encrypted, makes tokens of the length the format
  prescribes and accepts none that are shorter; `json.loads` undoes `json.dumps`.
* UUID generation, clocks, nonces, network outcomes and the order in which the broker hands
  out events are parameters or choices of the run.

## Results that differ from what one might expect

* **Slug reuse.** The database only keeps current slugs unique. A slug released by a rename
  and taken by another channel before the worker caught up lets the old channel's command
  unbind a member of the new one (`BrokerReuse.ReusedSlugCounterexample`).
  `BrokerReuse.SlugGuardIsExact` gives the exact guard, checkable when the slug is assigned:
  the binding rows and running workers of no other channel still refer to it.
* **Dead-lettered bindings.** A binding command that used up its attempts is never selected
  again. Workers alone reconcile a pair exactly when it is up to date, being worked on or
  waiting (`BrokerReuse.WorkersReconcileExactly`); otherwise an operator has to retry or
  re-enqueue (`BrokerReuse.OperatorRecovers`).
* **Long plaintext messages.** Migration writes tokens of any length, while the parser
  refuses tokens over 512 KiB. A row is still readable after rewriting exactly when its
  content is at most 393151 bytes (`MessageRotation.ReencryptedReadsBack`). Publishing is
  capped far below that, and stored text tokens always fit; an older plaintext row beyond it
  is committed unreadable (`MessageRotation.LongPlaintextLost`).
* **Messages without a body.** Deleted and attachment-only messages have no stored text. The
  tool counts them as unreadable, so a pass over a table with one of them never completes
  (`MessageRotation.EmptyBodyStopsMigration`, from the exact condition
  `MessageRotation.MigrationCompletesExactly`).
* **Downloads during rotation.** Between the replacement of a file and the commit of its row
  a version-1 row still names the old key, and its download fails until a rerun repairs it
  (`UploadRotation.DownloadInWindow`, failing family
  `UploadRotation.RotationInterruptsDownload`).
* **Sync with a deleted channel.** Memberships of deleted channels stay selected and cannot be
  left, so one of them makes the whole request fail until the channel is restored
  (`MessageSync.DoomedExactly`, `MessageSync.StuckUntilRestored`, instance
  `MessageSync.DeletedChannelBlocksSync`).
* **Filtered backfill.** A run limited to one scope repairs that scope's own events. Whether
  the verifier then accepts the scope depends on events of other channels that carry it, by
  a condition on the table before the run (`Backfill.FilteredRunVerifiesExactly`, failing
  instance `Backfill.FilteredRunCanFail`).

## Model

| member | source | states |
|---|---|---|
| MerkleTree.PairingKeepsTreeHash | backend/app/services/merkle_service.py:59-73 | one bottom-up pairing pass keeps the tree hash of section 2.1 of RFC 6962 (split at the largest power of two), for every list |
| MerkleTree.BuildMerkleRoot | backend/app/services/merkle_service.py:59-73 | succeeds exactly on non-empty lists of well-formed hashes, and then returns the recursive tree hash of RFC 6962 |
| MerkleTree.AuditPathByLevel | backend/app/services/merkle_service.py:76-101 | the audit path of section 2.1.1 of RFC 6962 is one sibling at this level followed by the path one level up |
| MerkleTree.BuildMerkleProof | backend/app/services/merkle_service.py:76-101 | the loop yields exactly the RFC 6962 audit path; it fails only for a bad index, bad hashes or lists beyond 2^64 |
| MerkleTree.AuditPathLength | backend/app/services/merkle_service.py:96-101 | an audit path has at most ceil(log2 n) siblings |
| MerkleTree.CeilLog2Characterised | backend/app/services/merkle_service.py:96-101 | the bound used is the real ceiling of the binary logarithm |
| MerkleTree.SiblingBoundNeverFires | backend/app/services/merkle_service.py:99-101 | a batch of at most 4096 leaves needs at most 12 siblings, so the 64-sibling check cannot fire |
| MerkleTree.VerifyMerkleProof | backend/app/services/merkle_service.py:104-150 | accepts exactly when the leaf, index and sibling sides lead to the given root under the width rule |
| MerkleTree.BuiltProofAccepted | backend/app/services/merkle_service.py:76-150 | completeness: every built proof is accepted against the built root |
| MerkleTree.AcceptedProofIsBinding | backend/app/services/merkle_service.py:104-150 | an accepted proof against the root of a list has the leaf at that index and exactly the built siblings, or exhibits a parent-hash collision |
| MerkleTree.EventRootIsBinding | backend/app/services/merkle_service.py:153-154 | equal event roots mean equal event-hash lists, of whatever lengths, or a collision between what the two trees hash |
| EventChain.VerifyEvents | backend/app/services/event_integrity_service.py:123-237 | valid exactly when every event is sound and linked to its predecessor; otherwise reports the first faulty event, its fault and the last valid hash |
| EventChain.AppendExtendsChain | backend/app/services/event_integrity_service.py:82-106 | linking an event makes it the last row of its scope in (created_at, id) order, keeps the chain valid and leaves other scopes alone |
| AuditLog.VerifyLeaves | backend/app/services/merkle_audit_service.py:444-480 | accepts exactly the leaf lists that are contiguous, match the stored boundaries and counts, carry correct leaf hashes and give the stored root |
| AuditLog.VerifyBatch | backend/app/services/merkle_audit_service.py:426-496 | accepts exactly the sound checkpoints: header, signature, leaves, as many distinct stored events as leaves, and every leaf equal to its event |
| AuditLog.VerifyHistory | backend/app/services/merkle_audit_service.py:515-545 | accepts exactly the histories numbered from one, each linked to the hash of its predecessor |
| AuditLog.VerifyDatabase | backend/app/services/merkle_audit_service.py:498-566 | reports no reason exactly when the database is sound through the requested checkpoint, event chains included when asked |
| Anchors.VerifyAnchor | backend/app/services/merkle_audit_service.py:741-790 | accepts exactly an anchor that is validly signed, names one stored checkpoint, equals its anchor, and whose history verifies |
| Anchors.HistoryIsBinding | backend/app/services/merkle_audit_service.py:498-566 | two sound histories whose last checkpoint hashes agree hold the same checkpoints, leaves and covered event contents, or hashing them exhibits a collision |
| Anchors.AnchoredHistoryIsUnique | backend/app/services/merkle_audit_service.py:728-790 | two databases that accept one anchor hold the same first k checkpoints, leaves and canonical event contents, or a concrete SHA-256 collision |
| Anchors.VerifyProofBundle | backend/app/services/merkle_audit_service.py:655-725 | the verdict is positive exactly when event hash, leaf, proof, checkpoint hash and signature all agree |
| Anchors.ProofForEvent | backend/app/services/merkle_audit_service.py:587-652 | returns a bundle exactly when one is available, and then the independent bundle verifier accepts it: the fixed positive verdict is justified |
| Anchors.BundleIsBinding | backend/app/services/merkle_audit_service.py:655-725 | an accepted bundle for a sound checkpoint proves the event hash stored at that index, or exhibits a collision |
| Checkpointing.CommitKeepsAuditGood | backend/app/services/merkle_audit_service.py:260-353 | committing a selection of stored, uncovered events keeps the whole audit database good |
| AuditRuns.StepKeepsInvariant | backend/app/services/merkle_audit_service.py:260-353 | every append, selection, commit or abandoned checkpoint keeps the invariant, appends between selection and commit included |
| AuditRuns.EveryRunVerifies | backend/app/services/event_service.py:11-33 | in every interleaving of appends and checkpoint steps the database verifies, each scope is one ordered valid chain, no event has two leaves, and checkpointed events are a prefix of their chain |
| AuditRuns.AnchorStaysAccepted | backend/app/services/merkle_audit_service.py:764-790 | an accepted anchor stays accepted after any further run |
| AuditRuns.StoredCheckpointAnchors | backend/app/services/merkle_audit_service.py:728-739 | every stored checkpoint of a reachable state has an accepted anchor |
| AuditRuns.CoveredEventHasProof | backend/app/services/merkle_audit_service.py:587-652 | in every reachable state a proof is available for every checkpointed event |
| AuditStore.Store.LogEvent | backend/app/services/event_service.py:11-33 | stores the linked event and keeps a good database good |
| AuditStore.Store.CreateCheckpoint | backend/app/services/merkle_audit_service.py:260-353 | fails with the first applicable fault and changes nothing, returns none exactly when nothing is pending, or commits the first pending events |
| AuditStore.PendingAfterCommit | backend/app/services/merkle_audit_service.py:295-353 | a checkpoint takes the first pending events and leaves the others, in order |
| AuditStore.GoodStateFault | backend/app/services/merkle_audit_service.py:260-300 | in a good database a checkpoint is refused exactly for its size or signing arguments |
| AuditStore.Store.CheckpointPending | backend/app/services/merkle_checkpoint_service.py:40-78 | terminates; a full drain of a good database leaves nothing pending, makes ceil(p / max) batches with consecutive numbers, all but the last full, whose leaves are the pending events in order |
| AuditStore.CeilDivIsCeiling | backend/app/services/merkle_checkpoint_service.py:40-78 | the batch count is the ceiling of the division |
| Backfill.BackfillRepairs | scripts/backfill_event_integrity.py:115-165 | a scope without conflict ends as one valid chain over its events in order |
| Backfill.RowsKeepIdentity | scripts/backfill_event_integrity.py:89-112 | identity, time, channel, actor, type and payload never change; hashed events never change without force; other scopes are untouched |
| Backfill.SecondRunChangesNothing | scripts/backfill_event_integrity.py:115-171 | a second run without force changes no row, whatever conflicts the first one met |
| Backfill.SecondRunUpdatesNone | scripts/backfill_event_integrity.py:126-165 | and it reports no update |
| Backfill.ConflictsReported | scripts/backfill_event_integrity.py:144-158 | a scope reports one conflict exactly when it was stopped, and force never conflicts |
| Backfill.UnfilteredRunRepairsAll | scripts/backfill_event_integrity.py:115-171 | after an unfiltered conflict-free run the rows the verifier reads for any scope form a valid chain |
| Backfill.FilteredRunVerifiesExactly | scripts/backfill_event_integrity.py:119-124 | after a conflict-free run limited to one scope the verifier accepts the scope if and only if, in the table before the run, events of other channels carrying that scope stand only after its own events and continue the chain from the hash a dry run ends with; any other acceptance exhibits a SHA-256 collision |
| Backfill.FilteredRunCanFail | scripts/backfill_event_integrity.py:119-124 | a two-event table on which such a run meets no conflict and leaves the scope unverifiable |
| Backfill.BackfillAll | scripts/backfill_event_integrity.py:115-171 | the nested loops write exactly the specified rows; a dry run writes none and reports the same statistics |
| BrokerBindings.StepKeepsInvariant | backend/app/services/outbox_service.py:124-200 | every transaction, broker operation, commit, crash and manual retry keeps the binding invariant when slugs are assigned free |
| BrokerBindings.EveryRunIsSound | worker/worker_app/outbox_runner.py:190-298 | in every run every bound key is recorded, a reconciled pair is bound to exactly its current key if entitled and to none otherwise, and any other pair has an unfinished command of its current generation |
| BrokerBindings.ReconciledTopology | worker/worker_app/outbox_runner.py:262-298 | once all pairs are reconciled the broker holds exactly the approved memberships of live channels |
| BrokerBindings.FinishedPlan | worker/worker_app/outbox_runner.py:262-274 | a worker whose operations are done leaves only the wanted key of its channel bound |
| BrokerReuse.ApplyingReconciles | worker/worker_app/outbox_runner.py:190-298 | applying a current command from start to commit makes the pair reconciled with exactly the wanted keys |
| BrokerReuse.WorkersReconcileExactly | worker/worker_app/outbox_runner.py:127-140 | a run of worker steps reconciles a pair if and only if the pair is up to date, has a running worker, or has a waiting command of its current generation |
| BrokerReuse.PairCanReconcile | worker/worker_app/outbox_runner.py:116-170 | in every reachable state workers alone, or one manual retry followed by workers, reconcile any pair |
| BrokerReuse.OperatorRecovers | backend/app/services/delivery_service.py:148-258 | any other pair has a dead-lettered command of its current generation; retrying it by hand, or enqueueing the pair again, puts it back in the workers' hands |
| BrokerReuse.DeadLetteredPairIsStuck | worker/worker_app/outbox_runner.py:370-393 | such a state is reached by a first command that fails once too often |
| BrokerReuse.PerformPlan | worker/worker_app/outbox_runner.py:262-274 | the planned operations unbind every known key but the wanted one and touch nothing else |
| BrokerReuse.SlugGuardIsExact | backend/app/services/channel_service.py:607-649 | assigning a slug is safe for every later run if and only if no other channel's row or running worker refers to it |
| BrokerReuse.UnfreeSlugBreaks | backend/app/services/channel_service.py:638-649 | from any reachable state, assigning a slug that is not free has a continuation that breaks soundness |
| BrokerReuse.ReusedSlugCounterexample | backend/app/services/channel_service.py:122-133 | a concrete run within the unique constraint that ends unsound |
| BrokerService.Service.EnqueueBinding | backend/app/services/outbox_service.py:124-175 | bumps the generation, keeps every earlier key, and enqueues a command for the new generation |
| BrokerService.Service.ReenqueueAll | backend/app/services/outbox_service.py:256-293 | every known or missing pair ends with a waiting command of its current generation, and no existing row changes |
| BrokerService.Service.ApplyBinding | worker/worker_app/outbox_runner.py:190-298 | the loops over the key list do exactly the worker's run of broker steps; a stale command changes no binding |
| OutboxLifecycle.EveryRunKeepsLifecycle | worker/worker_app/outbox_runner.py:116-170 | in every run with crashes and manual retries no committed row is publishing, published rows were confirmed since they were created or last reopened, waiting rows have attempts left, and a row is dead-lettered at exactly its maximum of consecutive failures |
| OutboxLifecycle.StepKeepsInvariant | backend/app/services/delivery_service.py:148-258 | each step keeps this, including a manual reset that races a publish |
| OutboxLifecycle.DelayBounds | worker/worker_app/outbox_runner.py:87-94 | retry delays lie within [initial, cap] and never shrink |
| OutboxLifecycle.Outbox.ProcessBatch | worker/worker_app/outbox_runner.py:116-170 | while other workers, new rows and manual retries change the table, each transaction takes the oldest unlocked row due at its own time; unless the limit is used up, no unlocked row is due at the end, and every row due at the start had its turn, was changed by the others or is locked by one |
| OutboxLifecycle.NoEarlyRetry | worker/worker_app/outbox_runner.py:116-170 | however long a batch takes, and whatever happens to the table short of a manual retry, it comes back to a row only after at least the initial delay |
| OutboxLifecycle.WorkersKeepRest | worker/worker_app/outbox_runner.py:87-94 | another worker's transaction never makes a row due earlier |
| Delivery.StepKeepsInvariant | backend/app/realtime/ws_manager.py:801-889 | every transaction, subscription, forwarding decision and finished read keeps cached generations truthful |
| Delivery.EveryDeliveryWasEntitled | backend/app/realtime/ws_manager.py:835-889 | a delivered event stamped g went to a user who was approved in the live channel at a generation of at least g, at a state no older than the event's |
| Delivery.NothingAfterRemoval | backend/app/services/channel_service.py:1462-1500 | nothing committed after access was taken away is delivered until it is given back |
| Delivery.NothingStampedAfterRemoval | backend/app/services/outbox_service.py:22-40 | the same for every event stamped with the removal's generation or a later one |
| Delivery.EntitledUserReceives | backend/app/realtime/ws_manager.py:801-889 | in every run a subscribed user gets a forwarded event from the cache at once, or a read decides: through every continuation it can still be made, then still be finished, and the event is delivered if and only if access held when the read was made |
| Delivery.PendingSurvives | backend/app/realtime/ws_manager.py:835-889 | a decision to read, or a read, stays available through every run that does not use it |
| Delivery.ReadAcceptsExactly | backend/app/realtime/ws_manager.py:862-889 | in every reachable state a read accepts its event exactly when it finds the user entitled: a stamp is never ahead of the tables |
| Delivery.HistoryGrows | backend/app/services/outbox_service.py:203-212 | generations only grow, and equal generations mean equal access |
| Delivery.Connection.FinishSubscribe | backend/app/realtime/ws_manager.py:642-653 | subscriptions become the requested channels the user is a member of, with their generations |
| Delivery.Connection.HandleUnsubscribe | backend/app/realtime/ws_manager.py:666-674 | the loop forgets exactly the listed channels in all three dictionaries |
| Delivery.Connection.HandleTargeted | backend/app/realtime/ws_manager.py:811-819 | a targeted update that ends access forgets the channel, any other leaves the socket alone |
| Delivery.Connection.BeginForward | backend/app/realtime/ws_manager.py:801-861 | ignores unsubscribed channels, delivers exactly when the cache answers, otherwise asks for a read |
| Delivery.Connection.FinishForward | backend/app/realtime/ws_manager.py:877-889 | drops the channel, refuses a newer event, or installs the generation and delivers |
| Presence.EveryRunIsConsistent | backend/app/realtime/presence.py:31-103 | with a non-decreasing clock: leases equal their index scores and mean online, online names have an index entry, and when nothing is due the online set is exactly the users with a later lease |
| Presence.RegisterKeepsInvariant | backend/app/realtime/presence.py:31-47 | registering or refreshing keeps the invariant |
| Presence.DisconnectKeepsInvariant | backend/app/realtime/presence.py:50-69 | disconnecting keeps the invariant |
| Presence.ReapKeepsInvariant | backend/app/realtime/presence.py:72-103 | reaping any listed entries keeps the invariant |
| Presence.KeyExpiryKeepsInvariant | backend/app/realtime/presence.py:216-247 | when Redis drops a user's key all its leases have expired, and the invariant survives |
| Presence.Service.RegisterOrRefresh | backend/app/realtime/presence.py:31-47 | reports online exactly when the user held no unexpired lease |
| Presence.Service.DisconnectOne | backend/app/realtime/presence.py:50-69 | reports offline exactly when the last unexpired lease goes |
| Presence.Service.ReapExpired | backend/app/realtime/presence.py:72-103 | handles at most the batch of due entries and returns exactly the names it took offline |
| Presence.Service.ReapToExhaustion | backend/app/realtime/presence.py:192-214 | terminates with nothing due and the online set exactly the users with a later lease |
| MessageSync.EveryRunSyncs | backend/app/services/message_service.py:168-301 | in every interleaving committed sequences are 1..last without gaps, and a client holds every undeleted message up to its cursor once and in order; every membership is of a stored, gapless channel, as a sync request expects |
| MessageSync.PagesPartition | backend/app/services/message_service.py:1029-1047 | a page and what lies beyond the advanced cursor make up exactly what was unseen |
| MessageSync.Sync | backend/app/services/message_service.py:925-971 | selects named or all memberships in order, deleted channels included; fails exactly when a selected channel is deleted; otherwise holds at most the limit, each page is the front of what its channel has unseen, and a response that is not full left nothing |
| MessageSync.SyncUntilDone | backend/app/services/message_service.py:954-971 | repeating with advanced cursors terminates; it succeeds exactly when no selected channel is deleted, and then returns every undeleted message once, in order per channel |
| MessageSync.DoomedExactly | backend/app/services/message_service.py:931-944 | a request fails if and only if the user belongs to a deleted channel that it names or, naming none, that is among the user's first hundred |
| MessageSync.StuckUntilRestored | backend/app/services/channel_service.py:1268-1280 | a member of a deleted channel stays one through every run that does not restore it |
| MessageSync.DeletedChannelBlocksSync | backend/app/services/message_service.py:931-944 | a run that joins a channel and deletes it, after which a request for everything fails |
| MessageSync.Publisher.Publish | backend/app/services/message_service.py:168-301 | the next sequence number is used only when the message commits; errors and repeated client ids change nothing |
| MessageSync.RetryIsIdempotent | backend/app/services/message_service.py:194-208 | publishing again with the same client id finds the first message |
| RateLimit.Limiter.Purge | backend/app/services/rate_limit_service.py:95-101 | removes exactly the expired windows and keeps queue and windows in one-to-one correspondence |
| RateLimit.Limiter.Hit | backend/app/services/rate_limit_service.py:71-93 | refines the plain map of windows, stays within the key cap, and asks for a wait that outlasts the key's window or, when saturated, the earliest one |
| RateLimit.AtMostTwiceTheLimit | backend/app/services/rate_limit_service.py:71-93 | for a fixed policy no interval one window long holds more than 2 x limit admissions of a key |
| RateLimit.TwiceTheLimitAttained | backend/app/services/rate_limit_service.py:71-93 | an ordered run under one policy in which exactly 2 x limit hits are admitted within one window's length |
| RateLimit.NothingThroughAtZero | backend/app/services/rate_limit_service.py:90-93 | a limit of zero admits nothing |
| UploadFormat.ParseHeaderExact | backend/app/core/upload_encryption.py:147-215 | a header parses to h exactly when it is the encoding of h under an available key and fits what is expected |
| UploadFormat.BuiltHeaderParses | backend/app/core/upload_encryption.py:94-144 | a built header parses back |
| UploadFormat.DecodeExact | backend/app/core/upload_encryption.py:322-370 | a file decodes to p exactly when it is byte for byte the encoding of p under its own header |
| UploadFormat.OneReading | backend/app/core/upload_encryption.py:322-370 | a file has at most one header and one content, whatever two readers expect |
| UploadFormat.DecodeSync | backend/app/core/upload_encryption.py:322-370 | the maintenance decoder computes the specified result, errors included; chunks yielded before an error are the authentic leading frames of the file |
| UploadFormat.DecodeAsync | backend/app/core/upload_encryption.py:507-546 | the download decoder, without counter and length checks, computes the same result and yields authentic leading frames only |
| UploadFormat.NoncesDistinct | backend/app/core/upload_encryption.py:84-87 | all chunk nonces of a file differ from each other and from the header nonce, as section 8 of NIST SP 800-38D requires |
| UploadFormat.FramesLength | backend/app/core/upload_encryption.py:299-315 | a content is stored in ceil(size / 65536) frames, each adding 24 bytes |
| UploadStore.Encryptor.EncryptChunk | backend/app/core/upload_encryption.py:299-315 | fails exactly for an empty, oversized, overflowing or excess chunk and otherwise emits the next frame |
| UploadStore.AcceptPiece | backend/app/services/message_service.py:1107-1113 | the pending buffer stays below one frame while every completed frame is written |
| UploadStore.StoreContent | backend/app/services/message_service.py:1060-1123 | for every splitting of the body, storing succeeds exactly when size, limit and checksum agree, and then the file is the encoding of the body |
| UploadStore.StoredFileDecodes | backend/app/services/message_service.py:1088-1123 | the stored file decodes to exactly that body |
| Maintenance.EveryRunKeepsContent | backend/app/db/crypto_tool.py:193-226 | through any crashes and restarts no content changes, and a completed pass leaves every row finished |
| Maintenance.FurtherRunChangesNothing | backend/app/db/crypto_tool.py:193-226 | a further pass over finished rows changes neither rows nor files |
| Maintenance.CompletesExactly | backend/app/db/crypto_tool.py:193-226 | some run completes, crashes and restarts allowed, if and only if every row can be processed as it stands |
| Maintenance.Store.RunPass | backend/app/db/crypto_tool.py:233-312 | the cursor loop keeps all content, finishes every row when it returns normally, and otherwise stopped at a row that cannot be processed |
| UploadRotation.ProcessKeepsContent | backend/app/db/crypto_tool.py:246-310 | processing one upload keeps its content, also while only the file has been replaced, and leaves metadata equal to the file header |
| UploadRotation.ProcessSucceeds | backend/app/db/crypto_tool.py:246-310 | the tool passes a row exactly when it has no file and promises none, or has readable content that can be rewritten where it must be |
| UploadRotation.EncryptPlaintextFile | backend/app/core/upload_encryption.py:405-436 | the block loop produces exactly the encoding of the file under the target key, and does so exactly when size and checksum fit the row and the key is usable |
| UploadRotation.ReencryptFile | backend/app/core/upload_encryption.py:439-474 | frames from the decoder, sealed one by one, give exactly the encoding of the decoded content under the target key, or nothing |
| UploadRotation.RotationReencrypts | backend/app/db/crypto_tool.py:267-280 | rotation re-encrypts exactly the validated content |
| UploadRotation.EveryRotationIsSafe | backend/app/db/crypto_tool.py:233-312 | from every crash point, a rerun that completes keeps all upload contents, everything under the target when rotating, metadata equal to headers; a further rerun changes nothing |
| UploadRotation.RotationCompletesExactly | backend/app/db/crypto_tool.py:233-312 | some run completes if and only if the tool can get past every row |
| UploadRotation.FinishedDownloads | backend/app/api/routes/messages.py:488-537 | once finished, the download serves exactly the content |
| UploadRotation.RotationInterruptsDownload | backend/app/db/crypto_tool.py:267-280 | every version-1 row under another key downloads before its rotation and after it, and fails in between |
| UploadRotation.DownloadCanFail | backend/app/api/routes/messages.py:488-537 | a concrete such row: an empty upload rotated from key a to key b |
| UploadRotation.DownloadInWindow | backend/app/api/routes/messages.py:488-537 | while only the file has been replaced, the download serves the content if and only if the row is still of version 0 or already names the target key |
| MessageRotation.TextEnvelopeParses | backend/app/core/encryption.py:136-145 | a text envelope parses back to its key and token exactly when the token is short enough |
| MessageRotation.JsonEnvelopeParses | backend/app/core/encryption.py:176-194 | the same for the JSON envelope |
| MessageRotation.ReencryptedReadsBack | backend/app/core/encryption.py:217-268 | a rewritten message reads back to its content if and only if the content is at most 393151 bytes |
| MessageRotation.FernetBound | backend/app/core/encryption.py:33-33 | the token bound of 512 KiB is exactly that bound on the plaintext |
| MessageRotation.StoredTextFits | backend/app/core/encryption.py:136-157 | a text already stored as a token always fits |
| MessageRotation.ProcessSucceeds | backend/app/db/crypto_tool.py:207-224 | the tool passes a row exactly when it is up to date or readable |
| MessageRotation.TooLongBecomesUnreadable | backend/app/db/crypto_tool.py:207-224 | a row whose content is too long is committed unreadable and stops every later run |
| MessageRotation.LongPlaintextLost | backend/app/db/crypto_tool.py:207-224 | a concrete such row, stored before publishing was capped |
| MessageRotation.EveryMigrationIsSafe | backend/app/db/crypto_tool.py:193-226 | if every row fits: from every crash point a completed rerun keeps all message contents under the current or target key, and a further rerun changes nothing |
| MessageRotation.MigrationCompletesExactly | backend/app/db/crypto_tool.py:193-226 | some run completes if and only if every row is up to date or readable |
| MessageRotation.EmptyBodyStopsMigration | backend/app/services/message_service.py:621-627 | a deleted or attachment-only message has no stored text and stops every migration of its table |

## Left out

- Real SHA-256, Ed25519, AES-GCM, HKDF, Fernet, base64 and JSON text: foreign libraries, present only through the laws above.
- PostgreSQL, Redis, RabbitMQ and asyncio themselves: their locks and atomic scripts shape the steps; queue expiry, message TTL and drop-head overflow are not steps.
- BrokerBindings.EveryRunIsSound: holds for runs that assign slugs only when free; the unrestricted claim is false, and the exact guard is proved instead.
- BrokerBindings: user and slug identifiers are taken to be safe identifiers, so the worker's identifier errors do not occur; role changes in a deleted channel do not occur, as in the services.
- BrokerBindings: a worker reads row, channel and membership in one step; a join that waited for the row lock can see an older membership only together with a newer generation, which makes the command stale; the same holds for an older slug of an approved pair, while for other pairs a rename leaves the generation and the worker can still unbind by the older slug.
- Delivery.Connection.FinishForward: writes into the socket's current dictionaries; the source writes the generation and time into those it held before the read, which a new subscription may have replaced, so that a fresh answer can get lost and the next event asks again.
- Delivery: decrypting and sending an authorised event are taken to succeed.
- Delivery: targeted membership updates and events without a channel are not ordinary channel events and bypass the checks modelled here.
- MessageRotation.EveryMigrationIsSafe: assumes that plaintext and JSON rows are at most 393151 bytes once serialised, the exact condition proved beside it; text tokens need no assumption.
- Maintenance: no other writer works on the rows during a pass, and each row has its own file path; the counters the tool prints are not modelled.
- MessageSync: message contents and edits, and the membership and channel parts of a sync response; channel ids are ordered as numbers, and the tables stand still while SyncUntilDone repeats.
- Presence: usernames are fixed per user and unique; the order in which due entries are listed is left open; failures to reach Redis change nothing.
- RateLimit: the heap is a queue with the earliest expiry in front, not heapq's array layout; the Redis path is a script of its own and is not modelled.
- OutboxLifecycle.DelayBounds: delays are computed over reals, without floating-point overflow.
- AuditLog: times are integers in microseconds and identifiers are numbers; text forms of UUIDs and timestamps are not modelled.
- "A published outbox row never reopens" and "the owner keeps the owner role": not claimed, because manual retry and invite acceptance do not promise them.
- RBAC tables, password policy, settings parsing, JWT, cookies, tickets, e-mail, the frontend, migrations and route handlers: they would only add easy members.
