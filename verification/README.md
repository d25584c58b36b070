# Fortnote's protocols, modelled and proved

Fortnote stores end-to-end encrypted notes. Its server keeps an append-only log of encrypted
updates per section, compacts it under checkpoints, takes large contents in resumable chunks,
meters storage, rotates note keys and replays events; its client keeps durable queues, verifies
what it downloads and indexes what it decrypts. Most of this is state transitions, one per
database transaction, IndexedDB transaction or turn of the event loop.

This project models those transitions and proves what every run of them keeps. Code that changes
state is modelled by classes whose methods are proved to perform a pure step on the tables; the
theorems are about all runs of those steps, and predicates on the rows alone (named `…Answer`,
`…Terms`) say what each transaction answers and leaves. `dafny verify dfyconfig.toml` checks everything.

| files | what they model |
|---|---|
| `SectionHistory`, `HistoryMeaning` | the section log, its two writers and compaction |
| `HistoryPages`, `HistoryReader`, `HistoryDelivery` | paging through the log while others write, and what readers get of what was sealed |
| `OutboxStore`, `Outbox`, `OutboxDelivery`, `OutboxRefinement`, `OutboxRetries` | the durable outbox, end-to-end delivery and retries |
| `ManifestText`, `Base64`, `ContentCodec`, `VerifiedContent` | chunked encryption and manifests |
| `SectionCache` | the evicting cache and verified downloads |
| `ContentStore`, `ContentTerms`, `ContentRepositories`, `UploadLifecycle`, `ContentReading` | uploads, chunks, commits, expiry, and what the log says of them |
| `AttachmentRepository`, `StorageLedger`, `StorageExamples` | attachments, deletion, reconciliation, conservation of bytes |
| `ResumeUpload`, `ResumeRuns`, `ContentDelivery` | resuming an interrupted upload against the server, and reading it back |
| `NoteSharing`, `KeyRotation`, `KeyCustody` | memberships, key shares, epoch links, and what each member can open |
| `EventReplay`, `EventProcessor` | the event log and the client that consumes it |
| `SearchIndex`, `SearchRebuild`, `SearchCoverage`, `SearchBatches` | the incremental search index |
| `AttachmentStorage`, `FlatJson`, `BinaryFrame`, `RateLimiter` | self-contained algorithms |
| `Basics` | bytes, options, sums over maps, sorting |

An encrypted payload stands for a set of editing operations and merging is union, so the meaning
of a log is the union of its rows. The one obligation on clients is that a checkpoint covers
everything numbered up to its cutoff; `HistoryReader.CompleteReaderMayCheckpoint` shows how a
client comes to meet it.

Assumptions stated in the contracts: hashes are collision-free and the cipher is an ideal AEAD
with sixteen bytes of overhead (`ContentCodec.Ideal`, shown consistent by
`VerifiedContent.IdealExists`; `NoteSharing.OpenEnvelope` and `NoteSharing.OpenShare` for note keys); sealed note keys are not
forged (`KeyRotation.Unforged`); search fingerprints do not collide, where said (`SearchRebuild.CollisionFree`);
the rate limiter's clock does not go back and its window is not empty.

Properties that hold only under a condition are stated with it:

- Reconciling a storage account restores its counters if and only if no attachment of that user is
  in flight (`StorageLedger.ReconcileRestoresExactly`, with a run in
  `StorageExamples.ReconcileDuringUploadLosesTheReservation`).
- Deleting a note conserves the storage counters if and only if it held no upload bytes and no
  manifest bytes (`StorageLedger.DeletionConservesIff`, over runs `StorageLedger.ExactIff`, with the
  exact excess in `StorageLedger.StorageIsConserved` and a run in `StorageExamples.DeletionLeavesBytes`).
- Releasing an attachment's bytes after its commit's reply was lost does no harm if and only if
  nothing else is reserved (`StorageExamples.LostReplyReleasesTwice`).
- Resuming an upload succeeds if and only if it is not overdue and still unswept: begin keeps the
  old expiry of a receiving upload, and the status request that follows expires it
  (`ResumeUpload.ResumeContentUpload`, which also shows that the next resume then succeeds;
  `ResumeRuns.OverdueHappens` reaches that state).
- Incremental search builds equal rebuilds, for every update, if and only if every stored entry that
  a text would reuse is what building that text gives (`SearchRebuild.ApplyIsFreshIff`); over a store
  of another tokenizer, if and only if both make the same of every unchanged block
  (`SearchRebuild.UpgradeIsFreshIff`, with an input in `SearchRebuild.ForeignEntrySurvives`).
- A pending section is ever indexed if and only if its load can be applied, none before it throws and
  fewer than the batch limit before it are stuck behind a newer record that cannot be opened
  (`SearchBatches.IndexedEventuallyIff`, with a starving store in
  `SearchBatches.UnreadableRecordStarvesTheNext`).
- A member's key share opens if and only if it was sealed for the note's present epoch
  (`KeyCustody.ShareOpensIff`): the invite transaction does not look at the epoch, so an invitation
  sealed before a rotation and stored after it opens to nothing (`KeyCustody.StaleInviteLocksOut`).
- A page that promises more moves the reader if and only if the page size is not zero.

## Model

| member | source | states |
|---|---|---|
| SectionHistory.PostgresSectionHistory.EnsureSection | apps/server/src/realtime/postgresHistory.ts:77-119 | creates the root section's row on first use and nothing else; finds a section exactly when it belongs to the note, is not deleted and is not newer than the epoch |
| SectionHistory.PostgresSectionHistory.Persist | apps/server/src/realtime/postgresHistory.ts:124-248 | which frames are inserted, already present, refused and why, each exactly; an insert adds one row that holds, column by column, the header's fields and the payload's cipher, nonce and operations under the next sequence, and takes along exactly the rows a checkpoint covers; anything else changes no row |
| HistoryMeaning.CompactionPreservesMeaning | apps/server/src/realtime/postgresHistory.ts:154-246 | after any run of inline writes, manifest commits, checkpoints and resends, the union of a section and epoch's surviving rows is the union of everything ever accepted there |
| HistoryMeaning.SequencesIncrease | apps/server/src/content/postgresManifestRepository.ts:153-213 | over any run both writers number a section's rows strictly upwards |
| HistoryMeaning.AppendDeletesExactlyThePrefix | apps/server/src/realtime/postgresHistory.ts:233-246 | an accepted row survives itself; exactly the rows of its own note, section and epoch at or below its cutoff go; every other row is untouched |
| HistoryMeaning.ResendOfSurvivingRow | apps/server/src/realtime/postgresHistory.ts:172-180 | sending an update again while its row survives writes no row and answers its first sequence, or is refused by the section or cutoff check |
| HistoryMeaning.ResendOfCompactedRow | apps/server/src/realtime/postgresHistory.ts:172-246 | sending again an update whose row was compacted away changes no section's meaning |
| HistoryMeaning.ObligationIsStable | apps/server/src/realtime/postgresHistory.ts:154-170 | a checkpoint that covered its prefix when it was sealed still covers it whenever it arrives: counters never go back below its cutoff |
| HistoryMeaning.StepKeepsValid | apps/server/src/realtime/postgresHistory.ts:154-246 | every step keeps rows recorded, numbering strict, and every accepted operation carried by a surviving row of its scope |
| HistoryDelivery.InsertedIsFirstOnItsPage | apps/server/src/realtime/postgresHistory.ts:187-302 | after an insert the page listed from the sequence before it starts with an inline entry that carries exactly the sender's header fields, cipher, nonce and operations |
| HistoryDelivery.EntriesAreSealed | apps/server/src/realtime/postgresHistory.ts:124-302 | over every run of queues, lossy transports, other writers and crashes, every entry of every page shows an update as its author sealed it, cipher and nonce included, and of the section the page is for |
| HistoryPages.HistoryEntry | apps/server/src/realtime/history.ts:116-154 | an entry exists exactly for whole inline rows and whole manifest references, and carries every field a reader uses |
| HistoryPages.PaginateHistory | apps/server/src/realtime/history.ts:93-114 | a page is the longest run of the selected rows within both limits, its first row always let through; its entries carry no more inline ciphertext than the byte limit unless there is only one, and the next row would have exceeded a limit; hasMore says exactly whether selected rows were left out |
| HistoryReader.SelectRows | apps/server/src/realtime/postgresHistory.ts:265-296 | the ordered, limited answer: ascending, only rows wanted, and nothing wanted is missing unless the limit is full and it comes later |
| HistoryReader.List | apps/server/src/realtime/postgresHistory.ts:250-302 | the list transaction answers one page of the section's rows above the cursor, and changes no row |
| HistoryReader.CompletePageMeansEverything | apps/client/src/realtime/client.ts:153-161 | a reader that starts at zero and follows nextSequence, with writes and compactions in between, holds exactly everything accepted in its scope once a page says nothing more follows |
| HistoryReader.CompleteReaderMayCheckpoint | apps/client/src/realtime/client.ts:153-161 | what such a reader holds meets the checkpoint obligation at any cutoff |
| HistoryReader.PagesMakeProgress | apps/server/src/realtime/history.ts:93-114 | a page that promises more moves the cursor if and only if the page size is not zero |
| OutboxStore.FortnoteIndexedDb.AcknowledgeOutbox | apps/client/src/lib/indexedDb.ts:101-117 | writes the acknowledgement, then drops the record unless it has become a recoverable draft |
| OutboxStore.FortnoteIndexedDb.AcquireLease | apps/client/src/lib/indexedDb.ts:118-144 | a lease is granted exactly when no other owner holds an unexpired one |
| OutboxStore.FortnoteIndexedDb.PreserveOutboxFence | apps/client/src/lib/indexedDb.ts:311-338 | every record of the fence becomes a draft that keeps its first rejection time; no record disappears and no other changes |
| OutboxStore.FortnoteIndexedDb.DeleteOutboxFence | apps/client/src/lib/indexedDb.ts:172-185 | removes exactly the fence's records |
| OutboxStore.FortnoteIndexedDb.ListOutbox | apps/client/src/lib/indexedDb.ts:282-289 | the account's records, oldest first, each exactly once |
| Outbox.EncryptedOutbox.Enqueue | apps/client/src/realtime/outbox.ts:139-160 | a foreign account is refused without a trace; a record behind a rejected fence is stored as a draft, any other as it is, every active fence is scheduled, and the record's own fence is flushed if it is active and connected |
| Outbox.EncryptedOutbox.Acknowledge | apps/client/src/realtime/outbox.ts:87-99 | an error is swallowed exactly when the acknowledgement is on disk; a failure between the two transactions leaves both the acknowledgement and the record |
| Outbox.EncryptedOutbox.Activate | apps/client/src/realtime/outbox.ts:101-112 | a fence that holds a draft is rejected again for its oldest draft's reason and sends nothing; any other becomes active and is flushed, however that flush ends |
| Outbox.EncryptedOutbox.PreserveTerminalFence | apps/client/src/realtime/outbox.ts:185-202 | marks the fence rejected, deactivates it and keeps its records as drafts |
| Outbox.EncryptedOutbox.FlushFence | apps/client/src/realtime/outbox.ts:225-292 | how a flush ends in every case: stores, lease, wire and timers when it may not start, finds nothing, loses the lease, or sends exactly what is due, oldest first, clears what is acknowledged, and arms a retry if and only if something is pending |
| OutboxRefinement.FlushIsARun | apps/client/src/realtime/outbox.ts:252-284 | the flush loop over a listing is a run of the delivery machine with the same stores and frames, so the theorems about all runs hold of it |
| OutboxRetries.FlushOffersIff | apps/client/src/realtime/outbox.ts:252-284 | an open, active, connected flush that gets the lease puts an unacknowledged record of its fence on the wire, when the transport carries it, if and only if it is queued, or sending with `updatedAt + retryDelay <= now`; each such record once, oldest first, and nothing else |
| OutboxRetries.FlushLeaves | apps/client/src/realtime/outbox.ts:252-291 | what such a flush leaves of every record, of other fences, of the retry timer and of the lease, in terms of the records' own fields |
| OutboxRetries.FlushHoldsBack | apps/client/src/realtime/outbox.ts:225-250 | a flush that is closed, disconnected or of an inactive fence does nothing; one that finds the lease taken sends nothing and arms a retry exactly if a record that is no draft is there |
| OutboxRetries.LostFrameIsOfferedAgain | apps/client/src/realtime/outbox.ts:261-284 | a record whose frame was lost and never acknowledged is put on the wire again by the flush after the delay, from where it can be delivered, and waits for the next retry |
| OutboxRetries.ArrivedFrameSettles | apps/server/src/realtime/server.ts:204-221 | a frame of a queued edit that arrives while its author may write: the run of its delivery and acknowledgement is possible and leaves the update accepted, the record gone and no other record changed |
| OutboxRetries.OutdatedFrameIsKept | apps/server/src/realtime/server.ts:204-212 | a frame that arrives after the note's key was rotated is refused, and the run of its refusal makes drafts of its fence's records that keep the edits as they were sealed |
| OutboxRetries.ReplyTerms | apps/server/src/realtime/server.ts:204-221 | exactly which reply each outcome sends |
| OutboxDelivery.ReplyIsTrue | apps/server/src/realtime/server.ts:204-221 | inserted and already-present replies both name a sequence at which the server accepted that update |
| OutboxDelivery.StepKeepsInv | apps/client/src/realtime/client.ts:305-319 | each of the eighteen steps (flushes from stale listings, lost and duplicated frames and replies, rejections, crashes between the two acknowledgement transactions, other writers) keeps the delivery invariant |
| OutboxDelivery.NoEditIsLost | apps/client/src/realtime/outbox.ts:87-160 | over every run an edit that was queued and not discarded by the user is still in the outbox or was accepted, and every acknowledgement on disk names a sequence of that update |
| OutboxDelivery.DeliveredEditsAreReadable | apps/server/src/realtime/postgresHistory.ts:154-246 | the operations of an edit that has left the outbox are in the surviving rows of its section and epoch |
| Encoding.DecimalInjective | apps/server/src/content/manifests.ts:56-66 | different numbers have different decimal text |
| ManifestText.LinesInjective | apps/server/src/content/manifests.ts:56-66 | the canonical text determines the chunk list |
| ManifestText.LineBreakInNonceIsAmbiguous | apps/server/src/content/manifests.ts:56-66 | without the condition on nonces two different chunk lists have the same text |
| Base64.DecodeEncode | packages/shared/src/crypto.ts:53-67 | decoding undoes encoding for every byte string |
| Base64.CanonicalIffEncoding | packages/shared/src/crypto.ts:53-67 | the canonical decoder accepts exactly the encodings of non-empty byte strings |
| ContentCodec.EncryptContentChunks | apps/client/src/crypto/content.ts:87-180 | succeeds exactly for acceptable limits, kinds and sizes, with one sealed chunk a slice, in order, and the declared totals |
| ContentCodec.DecryptContentChunks | apps/client/src/crypto/content.ts:182-253 | accepts exactly the lists that are complete, hash right, match the manifest and open, and returns their plaintext |
| ContentCodec.OpeningsLength | apps/client/src/crypto/content.ts:217-253 | sixteen bytes of overhead a chunk: the buffer computed from the declared totals fits exactly |
| VerifiedContent.SlicesPartition | apps/client/src/crypto/content.ts:112-132 | the slices put together are the plaintext, all but the last are full, and the last is empty only for an empty plaintext |
| VerifiedContent.RoundTrip | apps/client/src/crypto/content.ts:87-253 | any permutation of the encrypted chunks is accepted and gives the plaintext back; no chunk exceeds the limit; the declared total is the actual one |
| VerifiedContent.ManifestDeterminesContent | apps/client/src/crypto/content.ts:182-266 | two chunk lists accepted against one manifest and key are the same chunks up to order and give the same plaintext |
| VerifiedContent.ContentManifestHash | apps/server/src/content/manifests.ts:56-66 | the server's running hash is the hash of the canonical text of the sorted rows |
| VerifiedContent.BothSidesHashAlike | apps/client/src/crypto/content.ts:255-266 | client and server compute the same manifest hash for the same chunks, in whatever order either holds them |
| VerifiedContent.RefusedIff | apps/client/src/crypto/content.ts:100-120 | which contents are refused: a limit that leaves no room or is no safe integer, a cutoff without a checkpoint or the reverse, more than a million chunks |
| VerifiedContent.ChunkIsBound | apps/client/src/crypto/content.ts:122-165 | every prepared chunk is its piece of the plaintext sealed for exactly its identity, index, count and total under its own nonce |
| VerifiedContent.ChunkOpensOnlyInPlace | apps/client/src/crypto/content.ts:64-85 | a chunk whose ciphertext opens under no context but its own is accepted at no other index and for no other note, section, epoch, update, upload, kind, count or total |
| SectionCache.SectionCacheStore.EvictSectionCache | apps/client/src/lib/indexedDb.ts:194-240 | evicts the least recently used records that are not pending, exactly as many as the limits ask for; nothing that stays was accessed earlier than what went, and nothing else changes |
| SectionCache.WithinMeans | apps/client/src/lib/indexedDb.ts:194-240 | the limits bound the number of the user's records and their bytes together |
| SectionCache.CacheVerifiedChunks | apps/client/src/realtime/contentTransfer.ts:254-307 | afterwards the user's records are within both limits or all pending, no other record changed, and the new record is there if the pending ones leave it room |
| SectionCache.DownloadVerifiedContent | apps/client/src/realtime/contentTransfer.ts:158-307 | succeeds exactly when the cache verifies, or no abort interrupts it and the server verifies; what the server serves is what is returned, whatever the cache holds; a hit is touched, a broken entry deleted, a download cached |
| SectionCache.CachedDownloadHits | apps/client/src/realtime/contentTransfer.ts:221-253 | what a download cached is a hit next time, without the server |
| SectionCache.CacheHitIsFreshDownload | apps/client/src/realtime/contentTransfer.ts:221-253 | whatever the cached bytes are, a cache hit and any accepted download give the same plaintext |
| VerifiedContent.IdealExists | apps/client/src/crypto/content.ts:42-85 | the assumption on hashes and cipher is consistent |
| ContentRepositories.PostgresContent.ReserveStorage | apps/server/src/content/postgresUploadRepository.ts:520-541 | reserves exactly when used, reserved and new bytes fit the quota; creates the account row either way |
| ContentRepositories.PostgresContent.ReleaseStorage | apps/server/src/content/postgresUploadRepository.ts:543-555 | lowers the reservation, never below zero |
| ContentRepositories.PostgresContent.Begin | apps/server/src/content/postgresUploadRepository.ts:35-129 | each answer exactly: who is let in, what the note's state refuses, which section takes it, same declaration or conflict, room or not; a new upload holds the request's fields and the note's crypto owner, a revived one is otherwise as it was, and only its bytes are reserved |
| ContentRepositories.PostgresContent.Status | apps/server/src/content/postgresUploadRepository.ts:131-159 | answers an editor alone; an overdue upload that holds bytes is expired, its bytes and chunks given up, and nothing else changes |
| ContentRepositories.PostgresContent.RegisterChunk | apps/server/src/content/postgresUploadRepository.ts:180-248 | raced, conflicting or stored exactly by the row that is there; a new row makes the upload invalid beyond its declared bytes, complete at its count and bytes, and otherwise leaves its status |
| ContentRepositories.PostgresContent.Abort | apps/server/src/content/postgresUploadRepository.ts:250-281 | who may abort and what, exactly; an upload that holds bytes gives them and its chunks up |
| ContentRepositories.PostgresContent.Commit | apps/server/src/content/postgresManifestRepository.ts:24-250 | a commit answers the manifest that is there, writes one if and only if the access, the chunks, the hash, the section, the keys and the account allow it, or leaves no trace; manifest and log row say, field by field, what the upload declared, under the next sequence |
| ContentRepositories.PostgresContent.ExpireUploads | apps/server/src/content/postgresMaintenanceRepository.ts:20-88 | expires at most the limit, the longest overdue first; hasMore is true exactly when overdue uploads remain, and then the limit was used up |
| ContentRepositories.PostgresContent.ReconcileStorageAccount | apps/server/src/content/postgresMaintenanceRepository.ts:216-252 | sets the counters to the sums over the rows |
| ContentTerms.WrittenIff | apps/server/src/content/postgresManifestRepository.ts:109-235 | a manifest is written if and only if the chunks are all there and hash to the declared hash, the section is live and the cutoff not ahead, the keys are free and the bytes reserved |
| ContentTerms.WriteLeaves | apps/server/src/content/postgresManifestRepository.ts:154-235 | what a commit writes, column by column: the manifest says what the upload declared, the log row what the manifest says, exactly the covered rows go, and the bytes become usage |
| ContentTerms.ExpiryTerms | apps/server/src/content/postgresMaintenanceRepository.ts:20-88 | what a sweep may take: overdue uploads that hold bytes, which lose their chunks and give their bytes back |
| ContentReading.EntriesNameManifests | apps/server/src/realtime/postgresHistory.ts:265-302 | over every run of the content machine, any manifest entry on any page is of the page's scope and says exactly what one committed manifest says, whose chunk rows are all there and hash to the hash the entry names |
| ContentReading.StepKeepsNames | apps/server/src/content/postgresManifestRepository.ts:154-181 | each step keeps: every log row with a manifest id names an existing manifest and has its upload, totals, chunk count, hash, kind, epoch, section, cutoff and sequence |
| ContentReading.CommittedIsFirstOnItsPage | apps/server/src/content/postgresManifestRepository.ts:154-181 | right after a commit the page above the sequence before it starts with an entry that carries exactly the manifest the commit answered |
| UploadLifecycle.BeginShape | apps/server/src/content/postgresUploadRepository.ts:35-129 | begin either leaves uploads, chunks, manifests and balances as they were, or puts one upload into receiving: a new one, or an expired or aborted one with the same declaration |
| UploadLifecycle.CountMeansAll | apps/server/src/content/postgresUploadRepository.ts:229-244 | a count and a byte sum that agree with the declaration mean exactly the indexes 0 to chunkCount - 1 (pigeonhole) |
| UploadLifecycle.StepKeepsInv | apps/server/src/content/postgresUploadRepository.ts:35-281 | every step of every client and job keeps the upload invariant |
| UploadLifecycle.CompleteMeansAllChunks | apps/server/src/content/postgresManifestRepository.ts:109-130 | in every reachable state a complete or committed upload has exactly its chunk indexes with lengths summing to the declared total, and an upload is committed exactly when it has its one manifest |
| UploadLifecycle.NoChunkAfterComplete | apps/server/src/content/routes.ts:138-167 | once complete, a chunk request changes nothing and is answered raced if and only if it repeats the stored chunk |
| UploadLifecycle.UploadPersists | apps/server/src/content/postgresUploadRepository.ts:180-281 | an upload outlives every step but its note's deletion, keeps its declaration, and once committed never changes |
| UploadLifecycle.CommittedIsTerminal | apps/server/src/content/postgresManifestRepository.ts:105-108 | over any run that spares the note, a committed upload keeps its status and its manifest |
| UploadLifecycle.RepeatedCommit | apps/server/src/content/postgresManifestRepository.ts:105-108 | a repeated commit, with any request id and after any such run, is refused by the gate or answers the same manifest and sequence, and changes nothing |
| UploadLifecycle.CommitAppendsToTheLog | apps/server/src/content/postgresManifestRepository.ts:132-213 | a written commit moves the section log exactly as the log's own commit step does |
| UploadLifecycle.CompleteUploadCommits | apps/server/src/content/postgresManifestRepository.ts:109-235 | for a complete upload the chunk checks never fail: the hash, the section, the unique keys and the account decide, both ways |
| AttachmentRepository.PostgresAttachmentMutations.ReserveUpload | apps/server/src/attachments/postgresMutationRepository.ts:53-108 | each answer exactly: who may edit, what the note's state refuses, duplicate, quota; a hold raises only the owner's reservation, by the size |
| AttachmentRepository.PostgresAttachmentMutations.CommitUpload | apps/server/src/attachments/postgresMutationRepository.ts:110-205 | stores the attachment if and only if actor, note, epoch, owner, identifier and reservation allow it, as a row of exactly that note, owner and size whose bytes become usage |
| AttachmentRepository.PostgresAttachmentMutations.Delete | apps/server/src/attachments/postgresMutationRepository.ts:217-270 | removes the row and lowers usage exactly when note, attachment and owner match |
| AttachmentRepository.PostgresAttachmentMutations.PermanentlyDelete | apps/server/src/notes/postgresLifecycleRepository.ts:59-119 | only the owner; takes exactly the rows of the note along in every table and gives back only the bytes of its attachments |
| AttachmentRepository.PostgresAttachmentMutations.UploadAttachment | apps/server/src/attachments/routes.ts:119-199 | which status it ends with, exactly; it turns its reservation into usage, or gives it back once however often cleanup runs, or loses the commit's reply and gives back bytes that were spent |
| StorageLedger.ReservedSuffices | apps/server/src/content/postgresUploadRepository.ts:543-555 | with the invariant every upload, hold and attachment finds its bytes in the counters, so no GREATEST clamp ever acts |
| StorageLedger.StepConserves | apps/server/src/content/postgresUploadRepository.ts:64-281 | every step but a permanent deletion and a reconciliation leaves the difference between counters and rows exactly as it was, for every user |
| StorageLedger.StorageIsConserved | apps/server/src/db/schema.ts:312-326 | over any run, deletions included, reserved bytes are exactly the uploads that hold bytes, the attachments in flight and what deleted notes left, used bytes exactly manifests, attachments and what deleted notes left, within the quota |
| StorageLedger.ExactIff | apps/server/src/notes/postgresLifecycleRepository.ts:59-119 | without a reconciliation of the user, the counters equal the rows at the end of a run if and only if every note of the user deleted in it held no upload bytes and no manifest bytes |
| StorageLedger.CountersCoverRows | apps/server/src/notes/postgresLifecycleRepository.ts:110-119 | over any run the counters never fall below the rows and never exceed the quota |
| StorageLedger.DeleteNoteLeaves | apps/server/src/notes/postgresLifecycleRepository.ts:59-119 | deleting a note raises its owner's excess by exactly its uploads' and its manifests' bytes, and nobody else's |
| StorageLedger.DeletionConservesIff | apps/server/src/notes/postgresLifecycleRepository.ts:59-119 | a deletion leaves every difference between counters and rows as it was if and only if the note held no upload bytes and no manifest bytes |
| StorageExamples.DeletionLeavesBytes | apps/server/src/notes/postgresLifecycleRepository.ts:110-119 | a concrete run, an upload begun and its note deleted, after which ten reserved bytes have no row |
| StorageLedger.ReconcileSetsSlack | apps/server/src/content/postgresMaintenanceRepository.ts:216-252 | reconciling makes usage exact, leaves the reservation short by exactly the attachment bytes in flight, raises neither counter and touches nobody else |
| StorageLedger.ReconcileRestoresExactly | apps/server/src/content/postgresMaintenanceRepository.ts:216-252 | reconciling brings the counters back to the rows if and only if the user has no attachment bytes in flight |
| StorageExamples.ReconcileDuringUploadLosesTheReservation | apps/server/src/content/postgresMaintenanceRepository.ts:231-252 | a concrete run in which a reconciliation between reserve and commit makes the attachment's commit fail for want of its reservation |
| StorageExamples.LostReplyReleasesTwice | apps/server/src/attachments/routes.ts:132-198 | a stored attachment commit whose reply is lost: usage stays exact, the reservation falls by the size or by all there is, harmless if and only if nothing else is reserved |
| StorageLedger.CommitNeverOverQuota | apps/server/src/content/postgresManifestRepository.ts:214-228 | the storage-limit refusal of a commit never fires for an upload that holds its bytes |
| StorageLedger.AttachTerms | apps/server/src/attachments/postgresMutationRepository.ts:155-163 | nor does the quota refusal of an attachment commit |
| ResumeUpload.BeginReady | apps/client/src/realtime/contentTransfer.ts:106-108 | from every state an honest upload can be left in, begin answers and leaves it receiving, complete or committed |
| ResumeUpload.PutReady | apps/client/src/realtime/contentTransfer.ts:113-129 | a missing prepared chunk is stored |
| ResumeUpload.CommitReady | apps/client/src/realtime/contentTransfer.ts:132-141 | with all chunks there, the commit succeeds and exactly one manifest names exactly the prepared chunks |
| ResumeUpload.TransferStore.PersistPreparedTransfer | apps/client/src/realtime/contentTransfer.ts:365-406 | a retained record wins over a new preparation of the same upload; a different identity is refused |
| ResumeUpload.ResumeContentUpload | apps/client/src/realtime/contentTransfer.ts:96-145 | succeeds if and only if no abort interrupts it and the upload is not overdue, ending in one manifest over exactly the prepared chunks that says, with the log row it appends, exactly what was prepared (update, note, section, crypto owner, epoch, kind, cutoff, count, total, hash), and changing nothing if already committed; however and wherever it stops, the upload can be resumed again, not overdue once it was inspected, and the record is not lost |
| ResumeRuns.InterruptedIsReady | apps/client/src/realtime/contentTransfer.ts:96-156 | from any resumable state, after any sequence of the upload's own begins, inspections, chunks, commits, aborts and sweeps it can be resumed |
| ResumeRuns.FirstUploadIsReady | apps/client/src/realtime/contentTransfer.ts:70-156 | so it can from an empty database with a note, its owner and a section, over every such run |
| ResumeRuns.ReadyIff | apps/server/src/content/postgresUploadRepository.ts:35-281 | beside any other clients, jobs and attachments that use their own identifiers and spare the note, an upload can be resumed if and only if its client has the access it prepared for and its bytes are reserved, used or fit |
| ResumeRuns.OverdueHappens | apps/server/src/content/postgresUploadRepository.ts:69-129 | a concrete run to a state that is resumable and overdue, the one a resume does not get past |
| ResumeUpload.EncodedIsWellPrepared | apps/client/src/crypto/content.ts:87-180 | every output of the chunk encoder is a well prepared transfer |
| ContentDelivery.ReaderGetsPlaintext | apps/client/src/realtime/contentTransfer.ts:158-219 | a transfer sealed from a plaintext and committed, then anything short of deleting its note: whoever lists a page that shows its manifest, as an active member with the key, claims of it exactly what was prepared, is sent every chunk, accepts them and gets the plaintext back |
| ContentDelivery.CommittedComesFirst | apps/client/src/realtime/crdt/transport.ts:138-172 | whoever lists from just before a committed transfer's row finds its manifest first |
| ContentDelivery.ChunkSentIff | apps/server/src/content/routes.ts:283-318 | a chunk is sent if and only if its manifest and row are there and the reader is an active member of the note; then with that row's hash and nonce and its file |
| ContentDelivery.SentIsPrepared | apps/server/src/content/postgresUploadRepository.ts:283-305 | each chunk the server sends a member of that manifest is the chunk that was prepared |
| NoteSharing.SameMembersIffPermutation | apps/server/src/notes/postgresRotationRepository.ts:14-20 | with a duplicate-free left side the one-sided comparison holds exactly for permutations |
| NoteSharing.PostgresNoteSharing.Invite | apps/server/src/notes/postgresMembershipRepository.ts:32-138 | each answer exactly; membership (with the role asked for) and share (with the sender, version and envelope given) change together or not at all, never for the actor or an owner, and nobody else's |
| NoteSharing.PostgresNoteSharing.UpdateRole | apps/server/src/notes/postgresMembershipRepository.ts:140-182 | changes the role of exactly an active non-owner, and nothing else |
| NoteSharing.PostgresNoteSharing.Revoke | apps/server/src/notes/postgresMembershipRepository.ts:184-234 | revokes exactly a non-owner that is not revoked yet, with its share, and nothing else |
| NoteSharing.PostgresNoteSharing.RotateLinked | apps/server/src/notes/postgresRotationRepository.ts:25-234 | each answer exactly: it goes through if and only if the active owner rotates a live, unfenced note from its version and epoch to the next and offers one share to exactly the collaborators that stay; then the note has the input's sealed key and title, the target epoch, version and root version one up and is not fenced, and member, shares and link are the input's |
| NoteSharing.PostgresNoteSharing.UpdateProtected | apps/server/src/notes/postgresMutationRepository.ts:106-222 | saves exactly for an active owner or editor at the note's version and epoch, a resealed key from the owner alone; the title and key given replace the stored ones and the versions rise by one |
| KeyCustody.OwnerReadsEverything | apps/client/src/lib/keyMaterial.ts:153-171 | over every run of invitations, role changes, revocations, saves, rotations and retries, however stale the views behind them, the owner's row opens to the key in force, that key opens the title of the present version, and with the links it gives the key of every earlier epoch |
| KeyCustody.ShareOpensIff | apps/client/src/lib/keyMaterial.ts:173-202 | over every such run a member's share opens to the key in force if and only if it was sealed for the note's present epoch, and to nothing otherwise |
| KeyCustody.EveryCollaboratorReads | apps/client/src/lib/keyMaterial.ts:173-202 | so if every invitation was sealed from a view of the epoch it is stored in, every active collaborator opens its share to the key in force and reaches the key of every epoch |
| KeyCustody.RotationReachesEveryone | apps/client/src/components/SharingPanel.tsx:390-450 | after any run at all, a rotation that goes through makes the key in force one that the owner and exactly the collaborators that stay can open, and that opens the title the key before it opened |
| KeyCustody.StaleInviteLocksOut | apps/server/src/notes/postgresMembershipRepository.ts:32-138 | a concrete run in which an invitation sealed before a rotation and stored after it lets a user in who can open nothing |
| KeyRotation.SharesAreForCollaborators | apps/server/src/notes/postgresMembershipRepository.ts:32-234 | over any run the users with a share are exactly the active non-owner members |
| KeyRotation.RotationReplacesEveryShare | apps/server/src/notes/postgresRotationRepository.ts:121-174 | right after a rotation the revoked user has no share and every surviving share came from that rotation |
| KeyRotation.TraverseEpochLinksBackward | apps/client/src/crypto/protected.ts:362-395 | the loop walks the links back to the target epoch, or fails at the first link that is missing, not adjacent, of another format or does not open |
| KeyRotation.ResolveNoteKeyAtEpoch | apps/client/src/lib/keyMaterial.ts:101-123 | the current key needs no links; earlier ones are walked to; epochs outside the range fail |
| KeyRotation.EveryEpochIsReadable | apps/client/src/crypto/protected.ts:362-395 | after any run of rotations, retries and stale preparations, links exist for exactly epochs two to the current one and, in any order, lead from the current key to the key in force at each epoch |
| KeyRotation.TraversalIsSound | apps/client/src/crypto/protected.ts:362-395 | whatever links a server hands out, a traversal that succeeds returns the true key, provided no sealed key was forged |
| KeyRotation.MatchingRotationSucceedsIff | apps/client/src/components/SharingPanel.tsx:281-330 | a preparation that matches an up-to-date view, retained or new, rotates the note if and only if its active owner sends it for a collaborator of a live, unfenced note with one share for exactly the collaborators that stay |
| KeyRotation.MatchesMeans | apps/client/src/lib/keyMaterial.ts:87-100 | a preparation may be sent again for the same user, from the same version and epoch to the next; a new one always may |
| KeyRotation.RetriesAreSafe | apps/client/src/components/SharingPanel.tsx:281-305 | a used or outdated preparation changes nothing when sent again; a matching one for an up-to-date view passes the epoch checks |
| EventReplay.FirstOfIsAPage | apps/server/src/events/postgresReplayRepository.ts:59-60 | the answer is ascending, within the limit, only visible events, and what is missing comes after a full page |
| EventReplay.PostgresEventReplay.ListVisible | apps/server/src/events/postgresReplayRepository.ts:18-63 | the first events in cursor order among those shown to an active member of their note, to their actor when they have no note, or to an addressee that has not acknowledged them |
| EventReplay.PostgresEventReplay.Acknowledge | apps/server/src/events/postgresReplayRepository.ts:65-96 | raises the user's cursor to the maximum, and of exactly the notes the user was told about the acknowledgement to the latest such event, unless a later one was acknowledged; nobody else's |
| EventReplay.PostgresEventReplay.Prune | apps/server/src/events/postgresReplayRepository.ts:107-174 | deletes exactly the events up to the bound that no active member, actor or addressee still waits for, and the acknowledgements that hide no remaining event |
| EventReplay.RevocationReaches | apps/server/src/events/postgresReplayRepository.ts:40-48 | an unacknowledged revocation above the cursor is in a page long enough of exactly the revoked user and the note's active members |
| EventReplay.DeletionReaches | apps/server/src/events/postgresReplayRepository.ts:49-54 | an unacknowledged permanent deletion is in such a page of exactly the users it names and members still active |
| EventReplay.PruneIsInvisible | apps/server/src/events/postgresReplayRepository.ts:107-174 | for every user, every cursor at or above the acknowledged one and every page size, the answer before and after pruning is the same list of the same events |
| EventReplay.AcknowledgedTombstonesStayAway | apps/server/src/events/postgresReplayRepository.ts:65-174 | an acknowledged tombstone is never shown to that user again unless they are a member, whatever is appended, acknowledged or pruned later |
| EventReplay.CursorsNeverGoBack | apps/server/src/events/postgresReplayRepository.ts:65-76 | acknowledged cursors never decrease |
| EventProcessor.CollaborationEventProcessor.FlushPendingBatches | apps/client/src/hooks/useRealtimeEvents.ts:407-421 | one flush up to its first await: runs only while active, idle and with a batch pending; applies a batch once, waits for its reload or acknowledgement, and a failure arms one retry unless switched off |
| EventProcessor.CollaborationEventProcessor.ReloadSettles | apps/client/src/hooks/useRealtimeEvents.ts:419-441 | a reload that resolves is noted and followed by the acknowledgement unless switched off, one that rejects gives up and arms a retry |
| EventProcessor.CollaborationEventProcessor.AcknowledgeSettles | apps/client/src/hooks/useRealtimeEvents.ts:426-441 | an acknowledgement that resolves removes the batch under its greatest cursor and starts the next unless a retry is on its way, one that rejects gives up and arms a retry |
| EventProcessor.AppliedOnceInOrder | apps/client/src/hooks/useRealtimeEvents.ts:396-451 | under any failures, retries and arrivals each batch is applied at most once and in order, and acknowledged by its greatest cursor only after it was applied and reloaded |
| EventProcessor.NeverStuck | apps/client/src/hooks/useRealtimeEvents.ts:428-441 | while active, a pending batch is being processed or a retry is scheduled |
| EventProcessor.SuccessMakesProgress | apps/client/src/hooks/useRealtimeEvents.ts:407-441 | every callback that succeeds brings the queue closer to empty and nothing but an arrival sets it back |
| SearchIndex.CreateProtectedSearchIndex | apps/client/src/lib/searchIndex.ts:92-107 | refuses exactly an anonymous user, a key that is not 32 bytes and a batch limit that is not positive |
| SearchIndex.ProtectedSearchIndex.BuildEntries | apps/client/src/lib/searchIndex.ts:122-149 | fails exactly on blocks without an identity of their own; otherwise one entry a block and exactly the changed or removed ids |
| SearchIndex.ProtectedSearchIndex.ApplySection | apps/client/src/lib/searchIndex.ts:108-172 | what is stored depends on what was read, whether it is stored on what other tabs wrote meanwhile; a newer record is never replaced |
| SearchIndex.BuildTerms | apps/client/src/lib/searchIndex.ts:122-149 | the last stored entry of a block stands if it was made from a text of the same fingerprint, otherwise the block is analysed anew; changed are exactly the blocks analysed anew and the stored blocks that are gone |
| SearchRebuild.ApplyIsFreshIff | apps/client/src/lib/searchIndex.ts:108-172 | every apply stores what a build from nothing would, if and only if in every readable record each entry that some text would reuse is what building that text gives |
| SearchRebuild.AgreesIffHonest | apps/client/src/lib/searchIndex.ts:126-144 | without fingerprint collisions that condition is: each entry was built by this tokenizer or matches no text |
| SearchRebuild.UpgradeIsFreshIff | apps/client/src/lib/searchIndex.ts:81-90 | over a store built by another tokenizer with the same fingerprints, every apply stores a rebuild if and only if both make the same terms and excerpt of every unchanged block |
| SearchRebuild.ForeignEntrySurvives | apps/client/src/lib/searchIndex.ts:131-136 | the failing input: an apply by one tokenizer, then one by another that keeps the unchanged block's old terms |
| SearchRebuild.RunMirrorsApplied | apps/client/src/lib/searchIndex.ts:108-172 | after any run of applies of one tokenizer, with reads as stale as one likes, each record is a fresh build of the update last let through |
| SearchRebuild.NewestApplied | apps/client/src/lib/searchIndex.ts:108-172 | no update ever applied is newer than the one the index shows for its section |
| SearchRebuild.SequencesNeverGoBack | apps/client/src/lib/indexedDb.ts:355-378 | over any run of writes no record disappears and no sequence decreases |
| SearchCoverage.NormalizedIsMaximum | apps/client/src/lib/searchIndex.ts:319-335 | in order, one target a section, the greatest sequence asked for |
| SearchCoverage.NormalizeTargets | apps/client/src/lib/searchIndex.ts:319-335 | fails exactly on an invalid target, else answers that list |
| SearchCoverage.CoverageFor | apps/client/src/lib/searchIndex.ts:290-317 | complete exactly when every target is covered by a readable record; the pending sections in order with what is indexed and what is wanted; the counts add up |
| SearchCoverage.CoverageTerms | apps/client/src/lib/searchIndex.ts:290-317 | complete means every target's record can be opened and is no older; otherwise exactly the targets behind are reported, each with what it asks for and how far its readable record is |
| SearchCoverage.BuildNextBatch | apps/client/src/lib/searchIndex.ts:174-195 | one call: invalid targets are refused, the first pending sections are loaded and applied in order up to one that throws, and the coverage answered is that of what is then stored |
| SearchBatches.CallMovesQueue | apps/client/src/lib/searchIndex.ts:174-195 | the pending list after a call: what it passed over stays in front of what it did not reach, and the fate of what is pending does not change |
| SearchBatches.IndexedEventuallyIff | apps/client/src/lib/searchIndex.ts:174-195 | a pending section is ever indexed if and only if its load can be applied, none before it throws, and fewer sections than the batch limit before it are stuck behind a newer unreadable record |
| SearchBatches.BatchesFinishIff | apps/client/src/lib/searchIndex.ts:174-195 | repeated calls complete the targets if and only if every pending section's load can be applied |
| SearchBatches.BatchesAddUp | apps/client/src/lib/searchIndex.ts:174-195 | and then exactly when the batches add up to the pending sections |
| SearchBatches.UnreadableRecordStarvesTheNext | apps/client/src/lib/searchIndex.ts:174-195 | a concrete store in which a newer unreadable record keeps the next section from ever being indexed |
| SearchBatches.CallsKeepRecords | apps/client/src/lib/searchIndex.ts:174-195 | no call makes a record unreadable or takes it back |
| SearchCoverage.Query | apps/client/src/lib/searchIndex.ts:202-239 | the coverage, and every match of the readable target records as often as it occurs, in the order of the sort |
| SearchCoverage.QueryIsAScan | apps/client/src/lib/searchIndex.ts:202-239 | after any run of applies a query answers exactly the scans of the documents last applied, equally often and in the same order |
| SearchCoverage.QueryFindsIff | apps/client/src/lib/searchIndex.ts:202-239 | after any run of applies a query finds a match if and only if some block of the document last applied to a target's section has every word of the query, and the match names that block |
| AttachmentStorage.PostgresAttachmentStorage.Write | apps/server/src/attachments/postgresStorage.ts:20-77 | which error is reported depends on the total alone, what is stored on the bytes alone; a failed write leaves nothing, or only rows of its own object if its cleanup fails |
| AttachmentStorage.PostgresAttachmentStorage.ValidateAttachmentSize | apps/server/src/attachments/storage.ts:30-42 | rejects exactly the sizes outside the limits, with the right kind of error |
| AttachmentStorage.CanonicalShape | apps/server/src/attachments/postgresStorage.ts:46-66 | chunks 0 to k - 1, all but the last exactly 256 KiB, none empty, together the bytes |
| AttachmentStorage.FullChunksAreCanonical | apps/server/src/attachments/postgresStorage.ts:46-72 | full chunks and a remainder are the canonical cut of all bytes received |
| AttachmentStorage.NoGap | apps/server/src/attachments/postgresStorage.ts:99-105 | the count and the greatest index alone rule out a missing chunk |
| AttachmentStorage.Read | apps/server/src/attachments/postgresStorage.ts:79-161 | answers if and only if the object is recorded and its rows are chunks, without a gap, of exactly the recorded length; then it answers those chunks in order |
| AttachmentStorage.WrittenIsReadable | apps/server/src/attachments/postgresStorage.ts:20-106 | what was written looks complete and reads back as the same bytes |
| FlatJson.ParseRender | packages/shared/src/crdt.ts:145-156 | reading a rendered header object gives back its members |
| BinaryFrame.AcceptsExactly | packages/shared/src/crdt.ts:194-243 | a record is accepted as a header if and only if the header is valid and the record has exactly its fields' values, whatever else it holds and in whatever order |
| BinaryFrame.AcceptsByName | packages/shared/src/crdt.ts:194-243 | that is: each property under its own name is the header's, and kinds, identifiers, nonce and counts are in range |
| BinaryFrame.ValidateMembers | packages/shared/src/crdt.ts:194-243 | validating the rendered members of a valid header finds exactly that header, optional fields included |
| BinaryFrame.EncodeCrdtBinaryFrame | packages/shared/src/crdt.ts:110-133 | encodes exactly the acceptable records, as length, header bytes and ciphertext within the limit |
| BinaryFrame.DecodeCrdtBinaryFrame | packages/shared/src/crdt.ts:135-172 | returns a valid header and a ciphertext of its declared length, exactly for the frames within the limit whose big-endian length of 1 to 4096 leaves room for a ciphertext, with that header and that ciphertext |
| BinaryFrame.FrameRoundTrip | packages/shared/src/crdt.ts:110-172 | for every record, ciphertext and limit the encoder accepts, the decoder with the same limit returns exactly the validated header and the ciphertext |
| BinaryFrame.FramesAreUnambiguous | packages/shared/src/crdt.ts:110-172 | equal frames carry equal headers and ciphertexts |
| RateLimiter.RequestLimiter.Handle | apps/server/src/auth/routes.ts:129-162 | one request: sweep if due, refuse, start a window, or count; a refusal by count names the first whole second at which the window is over |
| RateLimiter.CleanupOnlyFreesCapacity | apps/server/src/auth/routes.ts:131-138 | sweeping never turns a pass into a refusal, and a refusal into a pass exactly when it makes room for a new key in a full table |
| RateLimiter.LimitHoldsOverRuns | apps/server/src/auth/routes.ts:121-163 | with a clock that does not go back, in any half-open interval of one window's length at most twice max(1, limit) minus one requests pass for a key, and the table never exceeds 10,000 entries |
| RateLimiter.BoundIsAttained | apps/server/src/auth/routes.ts:121-163 | for every limit and every window longer than one tick there is a run in which that many pass |

## Left out

- SQL, row locks and isolation levels: each transaction is one atomic step, a rollback is no change.
- The insert conflict in `begin` and the constraint error in `commit` that only concurrent transactions on the same rows could cause; unique keys are checked in the step.
- Gap-free live broadcast, outbox liveness and permanence of rejected records: the code does not keep them, so they are not stated.
- `OutboxDelivery` treats a stale write that overwrites a rejected draft as possible, as the code does; such a record is still in the outbox.
- Permanent note deletion in the section-log machine of `HistoryMeaning`; it is a step of the content machine.
- Whether the database lets a note with manifests be deleted: the restricting reference from manifests to uploads may refuse it, in which case nothing changes.
- Reuse of identifiers: ids are never handed out again, and event cursors are a serial column.
- The candidate order of orphan cleanup, and rows that the expiry sweep skips because another transaction holds them.
- The chunk route's size limit, its hexadecimal check and the file storage behind it; the chunk's row is modelled, and `ContentDelivery.Stores` says that the files hold what was sent.
- ResumeUpload.ResumeContentUpload: sends no progress reports, and its own writes to the browser's database do not run out of space, so `local-capacity` is no outcome; the record's progress set is kept.
- SectionCache.DownloadVerifiedContent: sends no progress reports; the JSON of cached chunks is a parameter, and ties in the eviction order are left open.
- AttachmentRepository.PostgresAttachmentMutations.UploadAttachment: the handler's checks of the request and the object storage it writes to are not part of it, and nothing runs in between; `StorageLedger` treats interleavings.
- SearchCoverage.BuildNextBatch: other tabs do not write during a batch; `SearchIndex.ProtectedSearchIndex.ApplySection` treats their writes.
- Outbox.EncryptedOutbox.FlushFence: runs uninterrupted and shares no flush already under way; `OutboxDelivery` treats interleavings.
- The order `localeCompare` gives (an integer rank of the keys and matches in play), tokenising, normalising and excerpts are parameters of the index.
- `FlatJson.Parse` reads the form `JSON.stringify` writes; white space, escapes, fractions and non-ASCII text that `JSON.parse` would accept are refused.
- Sharing keys are named by user and version; how their private halves are kept, and whether a client trusts a public key, is not part of the model. The folder and the root section of a protected update are boolean parameters.
- Format versions of log rows, notes and shares; only those of epoch links are compared.
- HTTP routing, cookies, sessions, presence, React, the store and Yjs internals.
- Access checks by session are a boolean parameter of each transaction.
