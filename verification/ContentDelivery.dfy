/**
 From one client's plaintext to another's: whatever happened to the database since a transfer was
 committed, a reader whose page shows its manifest gets back the plaintext that was sealed.
 */
module ContentDelivery {
  import opened Basics
  import opened Totals
  import opened SectionHistory
  import opened ContentCodec
  import opened VerifiedContent
  import opened ContentStore
  import opened AttachmentRepository
  import opened UploadLifecycle
  import opened ContentReading
  import ContentTerms
  import ResumeUpload
  import opened HistoryPages
  import HistoryReader
  import HistoryDelivery
  import SectionCache
  import Base64

  type TransferRecord = ResumeUpload.TransferRecord

  /** The files of the chunk storage, by upload and index. */
  type Files = (Id, nat) -> Bytes

  // ----- what a reader asks for and gets -----

  /** What a reader takes a history entry to claim of its content, in the section it subscribed to. */
  function ClaimFrom(entry: Entry, noteId: Id, sectionId: SectionRef): Claim
    requires entry.ManifestEntry?
  {
    Claim(Identity(entry.base.cryptoOwnerId, noteId, sectionId, entry.base.keyEpoch, entry.base.updateId, entry.uploadId,
                   entry.base.kind, entry.base.checkpointSequenceCutoff),
          entry.totalCipherBytes, entry.chunkCount, entry.manifestHash)
  }

  /** The row behind one chunk of a manifest, through the join with its upload's chunks. */
  function FindManifestChunk(db: Db, manifestId: Id, chunkIndex: nat): Option<StoredChunk> {
    if manifestId in db.manifests && chunkIndex in ChunksOf(db.chunks, db.manifests[manifestId].uploadId)
    then Some(ChunksOf(db.chunks, db.manifests[manifestId].uploadId)[chunkIndex])
    else None
  }

  predicate CanRead(access: Option<Access>) { access.Some? && access.value.status.Active? }

  /** The chunk route's answer: the row's hash and nonce with the file, to active members of the note. */
  function ChunkSent(db: Db, files: Files, userId: Id, manifestId: Id, chunkIndex: nat): Option<Downloaded> {
    var row := FindManifestChunk(db, manifestId, chunkIndex);
    if row.None? || !CanRead(AccessOf(db, db.manifests[manifestId].noteId, userId)) then None
    else Some(Downloaded(files(db.manifests[manifestId].uploadId, chunkIndex), row.value.cipherHash, Base64.Encode(row.value.nonce)))
  }

  /** Sent is a chunk of an existing manifest that is there, to an active member of its note, with its row's hash and its file. */
  lemma ChunkSentIff(db: Db, files: Files, userId: Id, manifestId: Id, chunkIndex: nat)
    ensures ChunkSent(db, files, userId, manifestId, chunkIndex).Some? <==>
      && manifestId in db.manifests
      && var m := db.manifests[manifestId];
      && m.uploadId in db.chunks && chunkIndex in db.chunks[m.uploadId]
      && m.noteId in db.notes && MemberKey(m.noteId, userId) in db.members && db.members[MemberKey(m.noteId, userId)].status == Active
    ensures ChunkSent(db, files, userId, manifestId, chunkIndex).Some? ==>
      var m, sent := db.manifests[manifestId], ChunkSent(db, files, userId, manifestId, chunkIndex).value;
      sent.bytes == files(m.uploadId, chunkIndex) && sent.cipherHash == db.chunks[m.uploadId][chunkIndex].cipherHash
      && sent.nonce == Base64.Encode(db.chunks[m.uploadId][chunkIndex].nonce)
  {
  }

  // ----- what a committed transfer keeps -----

  /** One manifest over exactly the prepared chunks, and the upload sealed as they were. */
  ghost predicate Delivered(db: Db, record: TransferRecord, manifestId: Id, manifest: Manifest) {
    var id := record.prepared.identity.uploadId;
    && id in db.uploads && db.uploads[id].status.Committed? && ResumeUpload.SealedFor(db.uploads[id], record)
    && ChunksOf(db.chunks, id).Keys == UpTo(|record.prepared.chunks|)
    && ResumeUpload.OwnRows(ChunksOf(db.chunks, id), record)
    && manifestId in db.manifests && db.manifests[manifestId] == manifest
    && ResumeUpload.ManifestIsPrepared(manifest, record)
  }

  lemma FinishedIsDelivered(db: Db, record: TransferRecord, manifestId: Id, manifest: Manifest)
    requires RowsNamed(db) && ResumeUpload.Finished(db, record, manifestId, manifest)
    requires ResumeUpload.RowWritten(db, record, CommittedAs(manifestId, manifest))
    ensures Delivered(db, record, manifestId, manifest)
  {
    assert NamesItsManifest(db, db.log.updates[record.prepared.identity.updateId]);
  }

  /** The chunk rows of a committed upload outlive every step but its note's deletion. */
  lemma CommittedChunksPersist(config: Config, w: World, step: Step, id: Id)
    requires Inv(w.db) && id in w.db.uploads && w.db.uploads[id].status.Committed? && !Deletes(step, w.db, w.db.uploads[id].noteId)
    ensures ChunksOf(Next(config, w, step).db.chunks, id) == ChunksOf(w.db.chunks, id)
  {
    hide Inv, Begun, StatusRead, Registered, AbortedBy, ExpireOne, Write, AccessOf;
    match step
    case CommitStep(session, userId, request) =>
      if CommitGate(w.db, session, userId, request).None? && !HasManifest(w.db.manifests, request.uploadId) {
        var owner := AccessOf(w.db, w.db.uploads[request.uploadId].noteId, userId).value.ownerUserId;
        if Write(w.db, owner, request, config.textHash).Written? {
          WriteShape(w.db, owner, request, config.textHash);
        }
      }
    case DeleteNoteStep(noteId, userId) =>
    case _ =>
      hide Next;
      ChunksOfStep(config, w, step);
  }

  lemma {:induction false} DeliveredStays(config: Config, w: World, steps: seq<Step>, record: TransferRecord, manifestId: Id, manifest: Manifest)
    requires Readable(config, w.db) && EnabledRun(config, w, steps) && Delivered(w.db, record, manifestId, manifest)
    requires SparesNote(config, w, steps, record.prepared.identity.noteId)
    ensures Readable(config, Run(config, w, steps).db) && Delivered(Run(config, w, steps).db, record, manifestId, manifest)
    decreases |steps|
  {
    hide Next, Enabled, Inv, RowsNamed, AllServe, Deletes, ResumeUpload.OwnRows, UpTo;
    if steps != [] {
      StepDelivered(config, w, steps[0], record, manifestId, manifest);
      StepKeepsInv(config, w, steps[0]);
      StepKeepsNames(config, w, steps[0]);
      StepKeepsServing(config, w, steps[0]);
      DeliveredStays(config, Next(config, w, steps[0]), steps[1..], record, manifestId, manifest);
    }
  }

  lemma StepDelivered(config: Config, w: World, step: Step, record: TransferRecord, manifestId: Id, manifest: Manifest)
    requires Inv(w.db) && Delivered(w.db, record, manifestId, manifest) && !Deletes(step, w.db, record.prepared.identity.noteId)
    ensures Delivered(Next(config, w, step).db, record, manifestId, manifest)
  {
    hide Next, Inv, Deletes, ResumeUpload.OwnRows, UpTo;
    ManifestIsCommitted(w.db, manifestId);
    UploadPersists(config, w, step, record.prepared.identity.uploadId);
    ManifestPersists(config, w, step, manifestId);
    CommittedChunksPersist(config, w, step, record.prepared.identity.uploadId);
  }

  // ----- what comes out -----

  /** The section and epoch a transfer is for. */
  function ScopeOf(record: TransferRecord): HistoryReader.Scope {
    var id := record.prepared.identity;
    HistoryReader.Scope(id.noteId, ContentTerms.SectionName(id.noteId, id.sectionId), id.keyEpoch)
  }

  /** Whoever lists from just before a committed transfer's row finds its manifest first. */
  lemma CommittedComesFirst(db: Db, record: TransferRecord, manifestId: Id, manifest: Manifest, after: nat, maxItems: nat,
      maxBytes: nat, page: Page)
    requires ResumeUpload.RowWritten(db, record, CommittedAs(manifestId, manifest)) && 0 < maxItems
    requires manifest.firstSequence == after + 1 && HistoryReader.PageOf(db.log, ScopeOf(record), after, maxItems, maxBytes, page)
    ensures page.entries != [] && page.entries[0].ManifestEntry? && page.entries[0].manifestId == manifestId
  {
    hide HistoryReader.PageOf;
    HistoryDelivery.NextRowIsFirstEntry(db.log, ScopeOf(record), after, maxItems, maxBytes, page, record.prepared.identity.updateId);
  }

  /** Its entry claims what was prepared. */
  lemma ClaimIsPrepared(config: Config, db: Db, record: TransferRecord, manifestId: Id, manifest: Manifest, after: nat, maxItems: nat,
      maxBytes: nat, page: Page, i: nat)
    requires Readable(config, db) && Delivered(db, record, manifestId, manifest)
    requires HistoryReader.PageOf(db.log, ScopeOf(record), after, maxItems, maxBytes, page)
    requires i < |page.entries| && page.entries[i].ManifestEntry? && page.entries[i].manifestId == manifestId
    ensures ClaimFrom(page.entries[i], record.prepared.identity.noteId, record.prepared.identity.sectionId) == ClaimOf(record.prepared)
  {
    hide Readable, HistoryReader.PageOf, Serves, ResumeUpload.OwnRows, UpTo;
    EntryNamesManifest(config, db, ScopeOf(record), after, maxItems, maxBytes, page, i);
  }

  /** Each chunk a member asks for is the chunk that was prepared. */
  lemma SentIsPrepared(crypto: Crypto, key: Id, plaintext: Bytes, max: int, nonces: nat -> Bytes, db: Db, record: TransferRecord,
      manifestId: Id, manifest: Manifest, files: Files, userId: Id, i: nat)
    requires SealedFrom(crypto, key, record.prepared.identity, plaintext, max, nonces, record.prepared)
    requires Delivered(db, record, manifestId, manifest) && CanRead(AccessOf(db, record.prepared.identity.noteId, userId))
    requires i < |record.prepared.chunks| && files(record.prepared.identity.uploadId, i) == record.prepared.chunks[i].cipherBytes
    ensures ChunkSent(db, files, userId, manifestId, i).Some?
    ensures FetchedChunk(i, ChunkSent(db, files, userId, manifestId, i).value) == record.prepared.chunks[i]
  {
    hide Slice, ChunkCount, Refused, ManifestHash, AccessOf, Base64.Encode, Base64.FromCanonical;
    assert i in UpTo(|record.prepared.chunks|);
    assert ChunksOf(db.chunks, record.prepared.identity.uploadId)[i] == ResumeUpload.RowOf(record, i);
    Base64.CanonicalIffEncoding(record.prepared.chunks[i].nonce, nonces(i));
  }

  /** The server answers each of the chunks, with what the download fetches. */
  ghost predicate Sends(db: Db, files: Files, userId: Id, manifestId: Id, count: nat, fetch: nat -> Downloaded) {
    forall j :: 0 <= j < count ==> ChunkSent(db, files, userId, manifestId, j) == Some(fetch(j))
  }

  /** The chunk storage holds what the transfer sent. */
  ghost predicate Stores(files: Files, record: TransferRecord) {
    forall j :: 0 <= j < |record.prepared.chunks| ==> files(record.prepared.identity.uploadId, j) == record.prepared.chunks[j].cipherBytes
  }

  /** A download of the claim is accepted and gives this plaintext. */
  ghost predicate GivesBack(crypto: Crypto, key: Id, claim: Claim, fetch: nat -> Downloaded, plaintext: Bytes) {
    && SectionCache.ServerVerifies(crypto, key, claim, fetch)
    && Plaintext(crypto, key, claim, Served(fetch, claim.chunkCount)) == plaintext
  }

  lemma SentIsAccepted(crypto: Crypto, key: Id, plaintext: Bytes, max: int, nonces: nat -> Bytes, db: Db, record: TransferRecord,
      manifestId: Id, manifest: Manifest, files: Files, userId: Id, fetch: nat -> Downloaded)
    requires Ideal(crypto) && SealedFrom(crypto, key, record.prepared.identity, plaintext, max, nonces, record.prepared)
    requires Stores(files, record) && Delivered(db, record, manifestId, manifest)
    requires CanRead(AccessOf(db, record.prepared.identity.noteId, userId))
    requires Sends(db, files, userId, manifestId, record.prepared.chunkCount, fetch)
    ensures GivesBack(crypto, key, ClaimOf(record.prepared), fetch, plaintext)
  {
    hide Ideal, Accepts, Plaintext, CanRead, Refused, Slice, ChunkCount, Delivered, ChunkSent, AccessOf, SealChunk, ManifestHash, CipherTotal;
    var p := record.prepared;
    forall j | 0 <= j < p.chunkCount ensures FetchedChunk(j, fetch(j)) == p.chunks[j] {
      SentIsPrepared(crypto, key, plaintext, max, nonces, db, record, manifestId, manifest, files, userId, j);
    }
    assert Served(fetch, p.chunkCount) == p.chunks;
    RoundTrip(crypto, key, p.identity, plaintext, max, nonces, p, p.chunks);
  }

  /** An active member of the note is sent every chunk. */
  lemma MemberIsSentAll(crypto: Crypto, key: Id, plaintext: Bytes, max: int, nonces: nat -> Bytes, db: Db, record: TransferRecord,
      manifestId: Id, manifest: Manifest, files: Files, userId: Id)
    requires SealedFrom(crypto, key, record.prepared.identity, plaintext, max, nonces, record.prepared)
    requires Stores(files, record) && Delivered(db, record, manifestId, manifest)
    requires CanRead(AccessOf(db, record.prepared.identity.noteId, userId))
    ensures forall j :: 0 <= j < record.prepared.chunkCount ==> ChunkSent(db, files, userId, manifestId, j).Some?
  {
    hide CanRead, Refused, Slice, ChunkCount, Delivered, ChunkSent, AccessOf, SealChunk, ManifestHash;
    forall j | 0 <= j < record.prepared.chunkCount ensures ChunkSent(db, files, userId, manifestId, j).Some? {
      SentIsPrepared(crypto, key, plaintext, max, nonces, db, record, manifestId, manifest, files, userId, j);
    }
  }

  /**
   A transfer was sealed from a plaintext and is committed; then anything may happen short of
   deleting its note. Whoever lists a page that shows its manifest, as an active member of the note
   and holding the key, claims of it exactly what was prepared, is sent every chunk, accepts them
   and gets the plaintext back.
   */
  lemma ReaderGetsPlaintext(crypto: Crypto, key: Id, plaintext: Bytes, max: int, nonces: nat -> Bytes, config: Config, w: World,
      steps: seq<Step>, record: TransferRecord, manifestId: Id, manifest: Manifest, files: Files, userId: Id, after: nat,
      maxItems: nat, maxBytes: nat, page: Page, i: nat)
    requires Ideal(crypto) && SealedFrom(crypto, key, record.prepared.identity, plaintext, max, nonces, record.prepared)
    requires Stores(files, record) && Readable(config, w.db) && Delivered(w.db, record, manifestId, manifest)
    requires EnabledRun(config, w, steps) && SparesNote(config, w, steps, record.prepared.identity.noteId)
    requires HistoryReader.PageOf(Run(config, w, steps).db.log, ScopeOf(record), after, maxItems, maxBytes, page)
    requires i < |page.entries| && page.entries[i].ManifestEntry? && page.entries[i].manifestId == manifestId
    requires CanRead(AccessOf(Run(config, w, steps).db, record.prepared.identity.noteId, userId))
    ensures var db := Run(config, w, steps).db;
      var claim := ClaimFrom(page.entries[i], record.prepared.identity.noteId, record.prepared.identity.sectionId);
      && claim == ClaimOf(record.prepared)
      && (forall j :: 0 <= j < record.prepared.chunkCount ==> ChunkSent(db, files, userId, manifestId, j).Some?)
      && (forall fetch :: Sends(db, files, userId, manifestId, record.prepared.chunkCount, fetch) ==>
            GivesBack(crypto, key, claim, fetch, plaintext))
  {
    hide *;
    DeliveredStays(config, w, steps, record, manifestId, manifest);
    var db := Run(config, w, steps).db;
    ClaimIsPrepared(config, db, record, manifestId, manifest, after, maxItems, maxBytes, page, i);
    MemberIsSentAll(crypto, key, plaintext, max, nonces, db, record, manifestId, manifest, files, userId);
    forall fetch | Sends(db, files, userId, manifestId, record.prepared.chunkCount, fetch)
      ensures GivesBack(crypto, key, ClaimOf(record.prepared), fetch, plaintext)
    {
      SentIsAccepted(crypto, key, plaintext, max, nonces, db, record, manifestId, manifest, files, userId, fetch);
    }
  }
}
