/**
 Everything that can happen to the content tables, in any order, and what every reachable
 state keeps about uploads: complete means all chunks, committed is final, one manifest each.
 */
module UploadLifecycle {
  import opened Basics
  import opened Totals
  import opened SectionHistory
  import opened ManifestText
  import opened VerifiedContent
  import opened ContentStore
  import opened ContentRepositories
  import opened AttachmentRepository
  import HistoryMeaning

  /** An attachment request between its reservation and its end. */
  datatype Hold = Hold(noteId: Id, ownerUserId: Id, attachmentId: Id, keyEpoch: nat, size: nat)

  datatype World = World(db: Db, holds: map<Id, Hold>)

  datatype Step =
    | BeginStep(session: bool, userId: Id, input: BeginInput)
    | StatusStep(uploadId: Id, userId: Id, now: nat)
    | ChunkStep(session: bool, userId: Id, uploadId: Id, chunk: StoredChunk)
    | AbortStep(session: bool, userId: Id, uploadId: Id)
    | CommitStep(session: bool, userId: Id, request: CommitInput)
    | ExpireStep(uploadId: Id, cutoff: nat)
    | ReconcileStep(userId: Id)
    | HoldStep(holdId: Id, userId: Id, noteId: Id, attachmentId: Id, size: nat, expectedKeyEpoch: nat)
    | AttachStep(holdId: Id, session: bool, actorUserId: Id)
    | LetGoStep(holdId: Id)
    | DetachStep(noteId: Id, attachmentId: Id, userId: Id)
    | DeleteNoteStep(noteId: Id, userId: Id)
    | NoteStep(noteId: Id, note: Note)
    | MemberStep(key: MemberKey, membership: Option<Membership>)
    | LogStep(change: HistoryMeaning.Step)

  /** The configuration: the quota and the hash the server computes. */
  datatype Config = Config(quota: nat, textHash: string -> string)

  ghost function CommitNext(config: Config, db: Db, session: bool, userId: Id, input: CommitInput): Db {
    if CommitGate(db, session, userId, input).Some? || HasManifest(db.manifests, input.uploadId) then db
    else
      var owner := AccessOf(db, db.uploads[input.uploadId].noteId, userId).value.ownerUserId;
      var written := Write(db, owner, input, config.textHash);
      if written.Written? then written.db else db
  }

  ghost function Next(config: Config, w: World, step: Step): World {
    match step
    case BeginStep(session, userId, input) => w.(db := Begun(w.db, session, userId, input, config.quota).0)
    case StatusStep(uploadId, userId, now) => w.(db := StatusRead(w.db, uploadId, userId, now).0)
    case ChunkStep(session, userId, uploadId, chunk) => w.(db := Registered(w.db, session, userId, uploadId, chunk).0)
    case AbortStep(session, userId, uploadId) => w.(db := AbortedBy(w.db, session, userId, uploadId).0)
    case CommitStep(session, userId, input) => w.(db := CommitNext(config, w.db, session, userId, input))
    case ExpireStep(uploadId, cutoff) => if Expirable(w.db, uploadId, cutoff) then w.(db := ExpireOne(w.db, uploadId)) else w
    case ReconcileStep(userId) => w.(db := Reconciled(w.db, userId))
    case HoldStep(holdId, userId, noteId, attachmentId, size, epoch) =>
      var (db, outcome) := AttachmentReserved(w.db, userId, noteId, attachmentId, size, epoch, config.quota);
      World(db, if outcome.Held? then w.holds[holdId := Hold(noteId, outcome.ownerUserId, attachmentId, epoch, size)] else w.holds)
    case AttachStep(holdId, session, actorUserId) =>
      if holdId !in w.holds then w
      else
        var hold := w.holds[holdId];
        var (db, outcome) := AttachmentCommitted(w.db, session, actorUserId, hold.noteId, hold.ownerUserId, hold.keyEpoch, hold.attachmentId, hold.size);
        World(db, if outcome.AttachmentStored? then w.holds - {holdId} else w.holds)
    case LetGoStep(holdId) =>
      if holdId !in w.holds then w
      else World(w.db.(accounts := Release(w.db.accounts, w.holds[holdId].ownerUserId, w.holds[holdId].size)), w.holds - {holdId})
    case DetachStep(noteId, attachmentId, userId) =>
      if attachmentId !in w.db.attachments then w
      else w.(db := AttachmentDeleted(w.db, noteId, attachmentId, userId, w.db.attachments[attachmentId].size))
    case DeleteNoteStep(noteId, userId) => w.(db := NoteDeleted(w.db, noteId, userId))
    case NoteStep(noteId, note) => w.(db := w.db.(notes := w.db.notes[noteId := note]))
    case MemberStep(key, membership) =>
      w.(db := w.db.(members := if membership.Some? then w.db.members[key := membership.value] else w.db.members - {key}))
    case LogStep(change) => w.(db := w.db.(log := HistoryMeaning.Apply(HistoryMeaning.History(w.db.log, []), change).log))
  }

  /** What the routes check before the transaction, and that a note keeps its owners. */
  ghost predicate Enabled(w: World, step: Step) {
    match step
    case BeginStep(_, _, input) => 0 < input.totalCipherBytes && 0 < input.chunkCount
    case ChunkStep(_, _, uploadId, chunk) =>
      uploadId in w.db.uploads ==> chunk.chunkIndex < w.db.uploads[uploadId].chunkCount && 0 < chunk.cipherLength
    case HoldStep(holdId, _, _, _, _, _) => holdId !in w.holds
    case NoteStep(noteId, note) =>
      noteId in w.db.notes ==> w.db.notes[noteId].ownerUserId == note.ownerUserId && w.db.notes[noteId].cryptoOwnerId == note.cryptoOwnerId
    case LogStep(change) => !change.CommitStep?
    case _ => true
  }

  ghost function Run(config: Config, w: World, steps: seq<Step>): World
    decreases |steps|
  {
    if steps == [] then w else Run(config, Next(config, w, steps[0]), steps[1..])
  }

  ghost predicate EnabledRun(config: Config, w: World, steps: seq<Step>)
    decreases |steps|
  {
    steps == [] || (Enabled(w, steps[0]) && EnabledRun(config, Next(config, w, steps[0]), steps[1..]))
  }

  const NEW_DATABASE := World(Db(map[], map[], Log(map[], map[]), map[], map[], map[], map[], map[]), map[])

  // ----- the invariant -----

  ghost predicate AllChunks(upload: Upload, rows: ChunkRows) {
    rows.Keys == UpTo(upload.chunkCount) && ReceivedBytes(rows) == upload.totalCipherBytes
  }

  ghost predicate StatusOk(upload: Upload, rows: ChunkRows) {
    match upload.status
    case Receiving => ReceivedBytes(rows) <= upload.totalCipherBytes && !AllChunks(upload, rows)
    case Complete => AllChunks(upload, rows)
    case Committed => AllChunks(upload, rows)
    case Invalid => ReceivedBytes(rows) > upload.totalCipherBytes
    case _ => rows == map[]
  }

  ghost predicate RowsOk(upload: Upload, rows: ChunkRows) {
    forall i :: i in rows ==> i < upload.chunkCount && rows[i].chunkIndex == i && 0 < rows[i].cipherLength
  }

  ghost predicate UploadOk(upload: Upload, rows: ChunkRows) {
    0 < upload.totalCipherBytes && RowsOk(upload, rows) && StatusOk(upload, rows)
  }

  ghost predicate UploadsOk(uploads: map<Id, Upload>, chunks: map<Id, ChunkRows>) {
    && chunks.Keys <= uploads.Keys
    && (forall id :: id in uploads ==> UploadOk(uploads[id], ChunksOf(chunks, id)))
  }

  /** A manifest says of its upload what the upload says, and an upload has at most one. */
  ghost predicate ManifestsOk(uploads: map<Id, Upload>, manifests: map<Id, Manifest>) {
    && (forall id :: id in manifests ==>
          && manifests[id].uploadId in uploads
          && manifests[id] == NewManifest(uploads[manifests[id].uploadId], manifests[id].uploadId, manifests[id].firstSequence))
    && (forall a, b :: a in manifests && b in manifests && manifests[a].uploadId == manifests[b].uploadId ==> a == b)
    && (forall id :: id in uploads ==> (uploads[id].status.Committed? <==> HasManifest(manifests, id)))
  }

  ghost predicate Inv(db: Db) {
    UploadsOk(db.uploads, db.chunks) && ManifestsOk(db.uploads, db.manifests)
  }

  // ----- pigeonhole -----

  /** Enough distinct in-range indexes are all of them. */
  lemma CountMeansAll(upload: Upload, rows: ChunkRows)
    requires RowsOk(upload, rows)
    ensures |rows| == upload.chunkCount && ReceivedBytes(rows) == upload.totalCipherBytes <==> AllChunks(upload, rows)
  {
    UpToSize(upload.chunkCount);
    assert |rows| == |rows.Keys|;
    if |rows| == upload.chunkCount {
      Pigeonhole(rows.Keys, upload.chunkCount);
    }
  }

  lemma NoRowsNoBytes()
    ensures ReceivedBytes(map[]) == 0
  {
    var none: ChunkRows := map[];
    assert RowLengths(none) == map[];
  }

  // ----- what the transactions can do, in three shapes -----

  /** What an upload declared never changes, so a route's index check stays good. */
  predicate SameDeclaration(before: Upload, after: Upload) {
    after == before.(status := after.status, expiresAt := after.expiresAt)
  }

  /** A new upload, or an expired or aborted one with the same declaration. */
  predicate Opens(db: Db, input: BeginInput, upload: Upload, quota: nat) {
    && input.noteId in db.notes
    && Opened(db, db.notes[input.noteId].ownerUserId, input.uploadId, upload, quota).Some?
    && upload.status.Receiving? && upload.noteId == input.noteId && upload.totalCipherBytes == input.totalCipherBytes
    && (input.uploadId in db.uploads ==>
          Revivable(db.uploads[input.uploadId].status) && SameDeclaration(db.uploads[input.uploadId], upload))
  }

  /** Account rows may have been created, but none is gone and no balance changed. */
  ghost predicate SameBalances(before: map<Id, Account>, after: map<Id, Account>) {
    before.Keys <= after.Keys && forall u :: Balance(after, u) == Balance(before, u)
  }

  /** Sections are only added, and none moves to another note. */
  ghost predicate SectionsGrow(before: map<Id, Section>, after: map<Id, Section>) {
    forall id :: id in before ==> id in after && after[id].noteId == before[id].noteId
  }

  predicate SectionOf(log: Log, stored: Id, noteId: Id) { stored in log.sections && log.sections[stored].noteId == noteId }

  lemma BeginShape(db: Db, session: bool, userId: Id, input: BeginInput, quota: nat) returns (base: Db,
      upload: Option<Upload>)
    ensures base == db.(log := base.log, accounts := base.accounts) && SameBalances(db.accounts, base.accounts)
    ensures base.log.updates == db.log.updates && SectionsGrow(db.log.sections, base.log.sections)
    ensures upload.None? ==> Begun(db, session, userId, input, quota).0 == base
    ensures upload.Some? ==>
      && Opens(base, input, upload.value, quota)
      && SameUpload(upload.value, input, StorageSectionId(input.noteId, input.sectionId))
      && SectionOf(base.log, StorageSectionId(input.noteId, input.sectionId), input.noteId)
      && Begun(db, session, userId, input, quota).0
         == Opened(base, base.notes[input.noteId].ownerUserId, input.uploadId, upload.value, quota).value
  {
    hide EnsuredSections, Usable, BegunInSection, Opened, SameDeclaration, SameUpload, SectionsGrow, SectionOf;
    base, upload := db, None;
    SectionsStay(db.log.sections);
    var access := AccessOf(db, input.noteId, userId);
    if session && BeginGate(access, input).None? {
      base := db.(log := db.log.(sections := EnsuredSections(db.log, input.noteId, input.sectionId, input.expectedKeyEpoch)));
      var stored := StorageSectionId(input.noteId, input.sectionId);
      EnsuringAdds(db.log, input.noteId, input.sectionId, input.expectedKeyEpoch);
      if Usable(base.log.sections, stored, input.noteId, input.expectedKeyEpoch) {
        UsableIsThere(base.log, stored, input.noteId, input.expectedKeyEpoch);
        base, upload := BeginInSectionShape(base, access.value, stored, input, quota);
      }
    }
  }

  lemma SectionsStay(sections: map<Id, Section>)
    ensures SectionsGrow(sections, sections)
  {
  }

  lemma EnsuringAdds(log: Log, noteId: Id, sectionId: SectionRef, epoch: nat)
    ensures SectionsGrow(log.sections, EnsuredSections(log, noteId, sectionId, epoch))
  {
  }

  lemma UsableIsThere(log: Log, stored: Id, noteId: Id, epoch: nat)
    requires Usable(log.sections, stored, noteId, epoch)
    ensures SectionOf(log, stored, noteId)
  {
  }

  lemma BeginInSectionShape(db: Db, access: Access, stored: Id, input: BeginInput, quota: nat) returns (base: Db,
      upload: Option<Upload>)
    requires input.noteId in db.notes && db.notes[input.noteId].ownerUserId == access.ownerUserId
    ensures base == db.(accounts := base.accounts) && SameBalances(db.accounts, base.accounts)
    ensures upload.None? ==> BegunInSection(db, access, stored, input, quota).0 == base
    ensures upload.Some? ==>
      && Opens(base, input, upload.value, quota)
      && SameUpload(upload.value, input, stored)
      && BegunInSection(db, access, stored, input, quota).0
         == Opened(base, base.notes[input.noteId].ownerUserId, input.uploadId, upload.value, quota).value
  {
    hide Opened, ViewOf;
    base, upload := db, None;
    var taken := Claimed(db.uploads, input);
    if !taken || (input.uploadId in db.uploads && SameUpload(db.uploads[input.uploadId], input, stored)
                  && Revivable(db.uploads[input.uploadId].status)) {
      var next := if taken then db.uploads[input.uploadId].(status := Receiving, expiresAt := input.expiresAt)
                  else NewUpload(input, stored, access.cryptoOwnerId);
      if Opened(db, access.ownerUserId, input.uploadId, next, quota).Some? {
        upload := Some(next);
      } else {
        base := db.(accounts := EnsuredAccount(db.accounts, access.ownerUserId));
      }
    }
  }

  predicate ClosingStep(step: Step) { step.StatusStep? || step.AbortStep? || step.ExpireStep? }

  /** Giving up an upload that still holds bytes. */
  predicate Closes(db: Db, id: Id, status: UploadStatus) {
    && id in db.uploads && Reserves(db.uploads[id].status) && Revivable(status)
    && db.uploads[id].noteId in db.notes
  }

  lemma ClosingShape(config: Config, w: World, step: Step) returns (id: Id, status: Option<UploadStatus>)
    requires ClosingStep(step)
    ensures status.None? ==> Next(config, w, step) == w
    ensures status.Some? ==>
      && id == step.uploadId && Closes(w.db, id, status.value)
      && Next(config, w, step) == w.(db := Closed(w.db, w.db.notes[w.db.uploads[id].noteId].ownerUserId, id, status.value))
  {
    hide Closed, ViewOf;
    id, status := step.uploadId, None;
    if id in w.db.uploads && Reserves(w.db.uploads[id].status) {
      match step
      case StatusStep(_, userId, now) =>
        if CanEdit(AccessOf(w.db, w.db.uploads[id].noteId, userId)) && w.db.uploads[id].expiresAt <= now {
          status := Some(Expired);
        }
      case AbortStep(session, userId, _) =>
        if AbortGate(w.db, session, userId, id).None? {
          status := Some(Aborted);
        }
      case ExpireStep(_, cutoff) =>
        if Expirable(w.db, id, cutoff) {
          status := Some(Expired);
        }
    }
  }

  /** Adding one chunk row and judging the upload anew. */
  ghost function Extended(db: Db, id: Id, chunk: StoredChunk): Db
    requires id in db.uploads
  {
    var rows := ChunksOf(db.chunks, id)[chunk.chunkIndex := chunk];
    db.(chunks := db.chunks[id := rows], uploads := db.uploads[id := db.uploads[id].(status := StatusAfter(db.uploads[id], rows))])
  }

  lemma ChunkShape(db: Db, session: bool, userId: Id, id: Id, chunk: StoredChunk) returns (added: bool)
    ensures !added ==> Registered(db, session, userId, id, chunk).0 == db
    ensures added ==>
      && id in db.uploads && (db.uploads[id].status.Receiving? || db.uploads[id].status.Complete?)
      && chunk.chunkIndex !in ChunksOf(db.chunks, id)
      && Registered(db, session, userId, id, chunk).0 == Extended(db, id, chunk)
  {
    hide CanEdit, AccessOf, StatusAfter, ReceivedBytes;
    added := ChunkGate(db, session, userId, id).None? && chunk.chunkIndex !in ChunksOf(db.chunks, id);
  }

  // ----- one lemma per kind of change to an upload -----

  /** The change touches one upload, leaves the others' chunks alone, and keeps the manifests. */
  lemma OneUpload(db: Db, next: Db, id: Id)
    requires Inv(db) && id in next.uploads
    requires next.uploads == db.uploads[id := next.uploads[id]] && next.manifests == db.manifests
    requires next.chunks - {id} == db.chunks - {id}
    requires UploadOk(next.uploads[id], ChunksOf(next.chunks, id))
    requires !next.uploads[id].status.Committed? && !HasManifest(db.manifests, id)
    ensures Inv(next)
  {
    hide UploadOk, NewManifest;
    forall other | other in next.uploads ensures UploadOk(next.uploads[other], ChunksOf(next.chunks, other)) {
      if other != id {
        assert ChunksOf(next.chunks, other) == ChunksOf(next.chunks - {id}, other) == ChunksOf(db.chunks, other);
      }
    }
    forall key | key in next.chunks ensures key in next.uploads {
      assert key == id || key in next.chunks - {id};
    }
  }

  lemma OpenedKeeps(db: Db, owner: Id, uploadId: Id, upload: Upload, quota: nat)
    requires Inv(db) && Opened(db, owner, uploadId, upload, quota).Some?
    requires upload.status.Receiving? && 0 < upload.totalCipherBytes
    requires !HasManifest(db.manifests, uploadId)
    ensures Inv(Opened(db, owner, uploadId, upload, quota).value)
  {
    NoRowsNoBytes();
    OneUpload(db, Opened(db, owner, uploadId, upload, quota).value, uploadId);
  }

  lemma ClosedKeeps(db: Db, owner: Id, uploadId: Id, status: UploadStatus)
    requires Inv(db) && uploadId in db.uploads && Reserves(db.uploads[uploadId].status) && Revivable(status)
    ensures Inv(Closed(db, owner, uploadId, status))
  {
    hide Inv, Release;
    UploadIsOk(db, uploadId);
    NoManifestYet(db, uploadId);
    OneUpload(db, Closed(db, owner, uploadId, status), uploadId);
  }

  lemma BeginKeeps(db: Db, session: bool, userId: Id, input: BeginInput, quota: nat)
    requires Inv(db) && 0 < input.totalCipherBytes
    ensures Inv(Begun(db, session, userId, input, quota).0)
  {
    hide Inv, Opened, Begun, SameBalances, SameDeclaration;
    var base, upload := BeginShape(db, session, userId, input, quota);
    SameTables(db, base);
    if upload.Some? {
      NoManifestYet(base, input.uploadId);
      OpenedKeeps(base, base.notes[input.noteId].ownerUserId, input.uploadId, upload.value, quota);
    }
  }

  lemma UploadIsOk(db: Db, id: Id)
    requires Inv(db) && id in db.uploads
    ensures UploadOk(db.uploads[id], ChunksOf(db.chunks, id))
  {
  }

  lemma NoManifestYet(db: Db, id: Id)
    requires Inv(db) && (id in db.uploads ==> !db.uploads[id].status.Committed?)
    ensures !HasManifest(db.manifests, id)
  {
  }

  lemma SameTables(db: Db, next: Db)
    requires Inv(db) && next.uploads == db.uploads && next.chunks == db.chunks && next.manifests == db.manifests
    ensures Inv(next)
  {
  }

  /** A chunk that is not there yet finds its upload still receiving. */
  lemma NewChunkMeansReceiving(upload: Upload, rows: ChunkRows, index: nat)
    requires UploadOk(upload, rows) && index < upload.chunkCount && index !in rows
    requires upload.status.Receiving? || upload.status.Complete?
    ensures upload.status.Receiving?
  {
  }

  lemma NewChunkOk(upload: Upload, rows: ChunkRows, chunk: StoredChunk)
    requires UploadOk(upload, rows) && upload.status.Receiving?
    requires chunk.chunkIndex < upload.chunkCount && 0 < chunk.cipherLength
    ensures var longer := rows[chunk.chunkIndex := chunk];
      UploadOk(upload.(status := StatusAfter(upload, longer)), longer)
  {
    hide ReceivedBytes;
    CountMeansAll(upload, rows[chunk.chunkIndex := chunk]);
  }

  lemma ChunkKeeps(db: Db, session: bool, userId: Id, uploadId: Id, chunk: StoredChunk)
    requires Inv(db)
    requires uploadId in db.uploads ==> chunk.chunkIndex < db.uploads[uploadId].chunkCount && 0 < chunk.cipherLength
    ensures Inv(Registered(db, session, userId, uploadId, chunk).0)
  {
    hide Inv, UploadOk, StatusAfter, ReceivedBytes, Registered;
    var added := ChunkShape(db, session, userId, uploadId, chunk);
    if added {
      var rows := ChunksOf(db.chunks, uploadId);
      UploadIsOk(db, uploadId);
      NewChunkMeansReceiving(db.uploads[uploadId], rows, chunk.chunkIndex);
      NewChunkOk(db.uploads[uploadId], rows, chunk);
      NoManifestYet(db, uploadId);
      ReceivingStaysUncommitted(db.uploads[uploadId], rows[chunk.chunkIndex := chunk]);
      OneUpload(db, Extended(db, uploadId, chunk), uploadId);
    }
  }

  lemma ReceivingStaysUncommitted(upload: Upload, rows: ChunkRows)
    requires upload.status.Receiving?
    ensures !StatusAfter(upload, rows).Committed?
  {
  }

  lemma ClosingKeeps(config: Config, w: World, step: Step)
    requires Inv(w.db) && ClosingStep(step)
    ensures Inv(Next(config, w, step).db)
  {
    hide Inv, Next, Closed;
    var id, status := ClosingShape(config, w, step);
    if status.Some? {
      ClosedKeeps(w.db, w.db.notes[w.db.uploads[id].noteId].ownerUserId, id, status.value);
    }
  }

  /** Turning a complete upload into a committed one with its only manifest. */
  lemma WriteKeepsManifests(uploads: map<Id, Upload>, manifests: map<Id, Manifest>, uploadId: Id, manifestId: Id,
      sequence: nat)
    requires ManifestsOk(uploads, manifests) && uploadId in uploads
    requires manifestId !in manifests && !HasManifest(manifests, uploadId)
    ensures ManifestsOk(uploads[uploadId := uploads[uploadId].(status := Committed)],
                        manifests[manifestId := NewManifest(uploads[uploadId], uploadId, sequence)])
  {
    var after := manifests[manifestId := NewManifest(uploads[uploadId], uploadId, sequence)];
    forall id | id in uploads ensures HasManifest(after, id) <==> id == uploadId || HasManifest(manifests, id) {
      if id == uploadId {
        assert after[manifestId].uploadId == uploadId;
      }
      if HasManifest(manifests, id) {
        var m :| m in manifests && manifests[m].uploadId == id;
        assert after[m].uploadId == id;
      }
    }
  }

  /** What a successful commit writes. */
  lemma WriteShape(db: Db, owner: Id, input: CommitInput, textHash: string -> string)
    requires input.uploadId in db.uploads && Write(db, owner, input, textHash).Written?
    ensures var next := Write(db, owner, input, textHash).db;
      var upload := db.uploads[input.uploadId];
      && upload.status.Complete? && upload.sectionId in db.log.sections && input.requestId !in db.manifests
      && next.uploads == db.uploads[input.uploadId := upload.(status := Committed)]
      && next.chunks == db.chunks
      && next.manifests == db.manifests[input.requestId :=
           NewManifest(upload, input.uploadId, db.log.sections[upload.sectionId].currentSequence + 1)]
      && Write(db, owner, input, textHash).manifest == next.manifests[input.requestId]
  {
    hide Append, NewManifest, ManifestRow, RowsRefusal, SectionRefusal, KeyTaken;
    var upload := db.uploads[input.uploadId];
    RowsAccepted(upload, ChunksOf(db.chunks, input.uploadId), textHash);
    SectionAccepts(db.log, upload);
    KeysUntaken(db, upload, input);
  }

  lemma RowsAccepted(upload: Upload, rows: ChunkRows, textHash: string -> string)
    ensures RowsRefusal(upload, rows, textHash).None? ==> upload.status.Complete?
  {
  }

  lemma SectionAccepts(log: Log, upload: Upload)
    ensures SectionRefusal(log, upload).None? ==> upload.sectionId in log.sections
  {
  }

  lemma KeysUntaken(db: Db, upload: Upload, input: CommitInput)
    ensures !KeyTaken(db, upload, input) ==> input.requestId !in db.manifests
  {
  }

  lemma WriteKeepsUploads(uploads: map<Id, Upload>, chunks: map<Id, ChunkRows>, id: Id)
    requires UploadsOk(uploads, chunks) && id in uploads && uploads[id].status.Complete?
    ensures UploadsOk(uploads[id := uploads[id].(status := Committed)], chunks)
  {
  }

  lemma WriteKeeps(db: Db, owner: Id, input: CommitInput, textHash: string -> string)
    requires Inv(db) && input.uploadId in db.uploads && !HasManifest(db.manifests, input.uploadId)
    requires Write(db, owner, input, textHash).Written?
    ensures Inv(Write(db, owner, input, textHash).db)
  {
    hide Write, ManifestsOk, UploadsOk, NewManifest;
    var upload := db.uploads[input.uploadId];
    WriteShape(db, owner, input, textHash);
    WriteKeepsManifests(db.uploads, db.manifests, input.uploadId, input.requestId, db.log.sections[upload.sectionId].currentSequence + 1);
    WriteKeepsUploads(db.uploads, db.chunks, input.uploadId);
  }

  lemma CommitKeeps(config: Config, db: Db, session: bool, userId: Id, request: CommitInput)
    requires Inv(db)
    ensures Inv(CommitNext(config, db, session, userId, request))
  {
    hide Inv, Write, AccessOf;
    if CommitGate(db, session, userId, request).None? && !HasManifest(db.manifests, request.uploadId) {
      var owner := AccessOf(db, db.uploads[request.uploadId].noteId, userId).value.ownerUserId;
      if Write(db, owner, request, config.textHash).Written? {
        WriteKeeps(db, owner, request, config.textHash);
      }
    }
  }

  lemma ManifestsWithoutOk(uploads: map<Id, Upload>, manifests: map<Id, Manifest>, noteId: Id)
    requires ManifestsOk(uploads, manifests)
    ensures ManifestsOk(UploadsWithout(uploads, noteId), ManifestsWithout(manifests, noteId))
  {
    var fewer := ManifestsWithout(manifests, noteId);
    forall id | id in UploadsWithout(uploads, noteId) ensures HasManifest(fewer, id) <==> HasManifest(manifests, id) {
      if HasManifest(manifests, id) {
        var m :| m in manifests && manifests[m].uploadId == id;
        assert fewer[m].uploadId == id;
      }
    }
  }

  lemma DeleteNoteKeeps(db: Db, noteId: Id, ownerUserId: Id)
    requires Inv(db)
    ensures Inv(NoteDeleted(db, noteId, ownerUserId))
  {
    hide UploadOk, ManifestsOk, LogWithout, MembersWithout, AttachmentsWithout, NoteAttachments;
    ManifestsWithoutOk(db.uploads, db.manifests, noteId);
    var next := NoteDeleted(db, noteId, ownerUserId);
    forall id | id in next.uploads ensures ChunksOf(next.chunks, id) == ChunksOf(db.chunks, id) {
    }
  }

  predicate UploadStep(step: Step) {
    ClosingStep(step) || step.BeginStep? || step.ChunkStep? || step.CommitStep? || step.DeleteNoteStep?
  }

  lemma OtherStepsKeep(config: Config, w: World, step: Step)
    requires !UploadStep(step)
    ensures var next := Next(config, w, step).db;
      next.uploads == w.db.uploads && next.chunks == w.db.chunks && next.manifests == w.db.manifests
  {
    hide AttachmentGate, Reserve, AccessOf, Reconciled, HistoryMeaning.Apply;
    if step.ReconcileStep? {
      ReconcileTouchesAccounts(w.db, step.userId);
    }
  }

  lemma SameLog(config: Config, w: World, step: Step)
    requires !UploadStep(step) && !step.LogStep?
    ensures Next(config, w, step).db.log == w.db.log
  {
    hide AttachmentGate, Reserve, AccessOf, Recomputed, Balance, Lowered, Release;
  }

  lemma ReconcileTouchesAccounts(db: Db, userId: Id)
    ensures Reconciled(db, userId) == db.(accounts := Reconciled(db, userId).accounts)
  {
  }

  lemma StepKeepsInv(config: Config, w: World, step: Step)
    requires Inv(w.db) && Enabled(w, step)
    ensures Inv(Next(config, w, step).db)
  {
    hide Inv, Begun, StatusRead, Registered, AbortedBy, CommitNext, NoteDeleted, ExpireOne;
    match step
    case BeginStep(session, userId, input) => BeginKeeps(w.db, session, userId, input, config.quota);
    case ChunkStep(session, userId, uploadId, chunk) => ChunkKeeps(w.db, session, userId, uploadId, chunk);
    case CommitStep(session, userId, request) => CommitKeeps(config, w.db, session, userId, request);
    case DeleteNoteStep(noteId, userId) => DeleteNoteKeeps(w.db, noteId, userId);
    case _ =>
      if ClosingStep(step) {
        ClosingKeeps(config, w, step);
      } else {
        OtherStepsKeep(config, w, step);
        SameTables(w.db, Next(config, w, step).db);
      }
  }

  lemma {:induction false} RunKeepsInv(config: Config, w: World, steps: seq<Step>)
    requires Inv(w.db) && EnabledRun(config, w, steps)
    ensures Inv(Run(config, w, steps).db)
    decreases |steps|
  {
    hide Inv, Next, Enabled;
    if steps != [] {
      StepKeepsInv(config, w, steps[0]);
      RunKeepsInv(config, Next(config, w, steps[0]), steps[1..]);
    }
  }

  // ----- results -----

  /**
   In every reachable state a complete or committed upload has exactly the chunks 0 to
   chunkCount - 1, their lengths sum to the declared total, and an upload is committed exactly
   when one manifest names it.
   */
  lemma CompleteMeansAllChunks(config: Config, steps: seq<Step>, id: Id)
    requires EnabledRun(config, NEW_DATABASE, steps)
    requires id in Run(config, NEW_DATABASE, steps).db.uploads
    ensures var db := Run(config, NEW_DATABASE, steps).db;
      && (db.uploads[id].status.Complete? || db.uploads[id].status.Committed? ==>
            && ChunksOf(db.chunks, id).Keys == UpTo(db.uploads[id].chunkCount)
            && ReceivedBytes(ChunksOf(db.chunks, id)) == db.uploads[id].totalCipherBytes)
      && (db.uploads[id].status.Committed? <==> HasManifest(db.manifests, id))
      && (forall a, b :: IsManifestOf(db.manifests, a, id) && IsManifestOf(db.manifests, b, id) ==> a == b)
  {
    RunKeepsInv(config, NEW_DATABASE, steps);
  }

  /** Once complete, a chunk request is answered from the rows and changes nothing. */
  lemma NoChunkAfterComplete(w: World, session: bool, userId: Id, uploadId: Id, chunk: StoredChunk)
    requires Inv(w.db) && Enabled(w, ChunkStep(session, userId, uploadId, chunk))
    requires uploadId in w.db.uploads && w.db.uploads[uploadId].status.Complete?
    ensures var (db, outcome) := Registered(w.db, session, userId, uploadId, chunk);
      && db == w.db
      && (ChunkGate(w.db, session, userId, uploadId).None? ==>
            (outcome == Raced <==> SameChunk(ChunksOf(w.db.chunks, uploadId)[chunk.chunkIndex], chunk)))
  {
    hide CanEdit, AccessOf;
    UploadIsOk(w.db, uploadId);
  }

  predicate Deletes(step: Step, db: Db, noteId: Id) {
    step.DeleteNoteStep? && step.noteId == noteId && Owns(db.notes, noteId, step.userId)
  }

  /** Every upload is still there, with what it declared, and committed ones are unchanged. */
  ghost predicate Persist(before: map<Id, Upload>, after: map<Id, Upload>) {
    forall id :: id in before ==>
      && id in after
      && SameDeclaration(before[id], after[id])
      && (before[id].status.Committed? ==> after[id] == before[id])
  }

  lemma OnePersists(uploads: map<Id, Upload>, id: Id, upload: Upload)
    requires id in uploads ==> SameDeclaration(uploads[id], upload) && !uploads[id].status.Committed?
    ensures Persist(uploads, uploads[id := upload])
  {
    hide SameDeclaration;
    forall other | other in uploads && other != id ensures SameDeclaration(uploads[other], uploads[id := upload][other]) {
      SameItself(uploads[other]);
    }
  }

  lemma SameItself(upload: Upload)
    ensures SameDeclaration(upload, upload)
  {
  }

  lemma NothingChanges(uploads: map<Id, Upload>)
    ensures Persist(uploads, uploads)
  {
    hide SameDeclaration;
    forall id | id in uploads ensures SameDeclaration(uploads[id], uploads[id]) { SameItself(uploads[id]); }
  }

  lemma BeginPersists(db: Db, session: bool, userId: Id, input: BeginInput, quota: nat)
    ensures Persist(db.uploads, Begun(db, session, userId, input, quota).0.uploads)
  {
    hide Begun, SameBalances, SameDeclaration, Persist;
    var base, upload := BeginShape(db, session, userId, input, quota);
    NothingChanges(db.uploads);
    if upload.Some? {
      OnePersists(db.uploads, input.uploadId, upload.value);
    }
  }

  lemma ChunkPersists(db: Db, session: bool, userId: Id, uploadId: Id, chunk: StoredChunk)
    ensures Persist(db.uploads, Registered(db, session, userId, uploadId, chunk).0.uploads)
  {
    hide Registered, Persist, StatusAfter;
    var added := ChunkShape(db, session, userId, uploadId, chunk);
    NothingChanges(db.uploads);
    if added {
      var rows := ChunksOf(db.chunks, uploadId)[chunk.chunkIndex := chunk];
      OnePersists(db.uploads, uploadId, db.uploads[uploadId].(status := StatusAfter(db.uploads[uploadId], rows)));
    }
  }

  lemma ClosingPersists(config: Config, w: World, step: Step)
    requires ClosingStep(step)
    ensures Persist(w.db.uploads, Next(config, w, step).db.uploads)
  {
    hide Next, Persist;
    var id, status := ClosingShape(config, w, step);
    NothingChanges(w.db.uploads);
    if status.Some? {
      OnePersists(w.db.uploads, id, w.db.uploads[id].(status := status.value));
    }
  }

  lemma CommitPersists(config: Config, db: Db, session: bool, userId: Id, request: CommitInput)
    requires Inv(db)
    ensures Persist(db.uploads, CommitNext(config, db, session, userId, request).uploads)
  {
    hide Inv, Write, AccessOf, Persist;
    NothingChanges(db.uploads);
    if CommitGate(db, session, userId, request).None? && !HasManifest(db.manifests, request.uploadId) {
      var owner := AccessOf(db, db.uploads[request.uploadId].noteId, userId).value.ownerUserId;
      if Write(db, owner, request, config.textHash).Written? {
        WriteShape(db, owner, request, config.textHash);
        OnePersists(db.uploads, request.uploadId, db.uploads[request.uploadId].(status := Committed));
      }
    }
  }

  /** An upload outlives every step but its note's deletion, keeps what it declared, and once committed stays so. */
  lemma UploadPersists(config: Config, w: World, step: Step, id: Id)
    requires Inv(w.db) && id in w.db.uploads && !Deletes(step, w.db, w.db.uploads[id].noteId)
    ensures id in Next(config, w, step).db.uploads
    ensures SameDeclaration(w.db.uploads[id], Next(config, w, step).db.uploads[id])
    ensures w.db.uploads[id].status.Committed? ==> Next(config, w, step).db.uploads[id] == w.db.uploads[id]
  {
    hide Inv, Begun, StatusRead, Registered, AbortedBy, CommitNext, ExpireOne, SameDeclaration;
    SameItself(w.db.uploads[id]);
    match step
    case BeginStep(session, userId, input) => BeginPersists(w.db, session, userId, input, config.quota);
    case ChunkStep(session, userId, uploadId, chunk) => ChunkPersists(w.db, session, userId, uploadId, chunk);
    case CommitStep(session, userId, request) => CommitPersists(config, w.db, session, userId, request);
    case DeleteNoteStep(noteId, userId) =>
    case _ =>
      if UploadStep(step) {
        ClosingPersists(config, w, step);
      } else {
        OtherStepsKeep(config, w, step);
      }
  }

  /** A manifest row outlives every step but its note's deletion. */
  lemma ManifestPersists(config: Config, w: World, step: Step, id: Id)
    requires Inv(w.db) && id in w.db.manifests && !Deletes(step, w.db, w.db.manifests[id].noteId)
    ensures id in Next(config, w, step).db.manifests && Next(config, w, step).db.manifests[id] == w.db.manifests[id]
  {
    hide Inv, StatusRead, Registered, AbortedBy, Write, AccessOf, BegunInSection, ExpireOne;
    match step
    case CommitStep(session, userId, request) =>
      if CommitGate(w.db, session, userId, request).None? && !HasManifest(w.db.manifests, request.uploadId) {
        var owner := AccessOf(w.db, w.db.uploads[request.uploadId].noteId, userId).value.ownerUserId;
        if Write(w.db, owner, request, config.textHash).Written? {
          WriteShape(w.db, owner, request, config.textHash);
        }
      }
    case DeleteNoteStep(noteId, userId) =>
    case _ =>
      if UploadStep(step) {
        SameManifests(config, w, step);
      } else {
        OtherStepsKeep(config, w, step);
      }
  }

  lemma SameManifests(config: Config, w: World, step: Step)
    requires UploadStep(step) && !step.CommitStep? && !step.DeleteNoteStep?
    ensures Next(config, w, step).db.manifests == w.db.manifests
  {
    hide Begun, Registered, StatusRead, AbortedBy, ExpireOne, SameBalances, SameDeclaration;
    match step
    case BeginStep(session, userId, input) => var base, upload := BeginShape(w.db, session, userId, input, config.quota);
    case ChunkStep(session, userId, uploadId, chunk) => var added := ChunkShape(w.db, session, userId, uploadId, chunk);
    case _ => var id, status := ClosingShape(config, w, step);
  }

  ghost predicate SparesNote(config: Config, w: World, steps: seq<Step>, noteId: Id)
    decreases |steps|
  {
    steps == [] || (!Deletes(steps[0], w.db, noteId) && SparesNote(config, Next(config, w, steps[0]), steps[1..], noteId))
  }

  /** Over any run that does not delete the note, a committed upload keeps its status and its manifest. */
  lemma {:induction false} CommittedIsTerminal(config: Config, w: World, steps: seq<Step>, manifestId: Id)
    requires Inv(w.db) && EnabledRun(config, w, steps) && manifestId in w.db.manifests
    requires SparesNote(config, w, steps, w.db.manifests[manifestId].noteId)
    ensures var db := Run(config, w, steps).db;
      var uploadId := w.db.manifests[manifestId].uploadId;
      && Inv(db)
      && manifestId in db.manifests && db.manifests[manifestId] == w.db.manifests[manifestId]
      && uploadId in db.uploads && uploadId in w.db.uploads
      && db.uploads[uploadId] == w.db.uploads[uploadId] && db.uploads[uploadId].status.Committed?
    decreases |steps|
  {
    hide Next, Enabled, UploadsOk;
    var uploadId := w.db.manifests[manifestId].uploadId;
    assert HasManifest(w.db.manifests, uploadId);
    if steps != [] {
      UploadPersists(config, w, steps[0], uploadId);
      ManifestPersists(config, w, steps[0], manifestId);
      StepKeepsInv(config, w, steps[0]);
      CommittedIsTerminal(config, Next(config, w, steps[0]), steps[1..], manifestId);
    }
  }

  /**
   Exactly once: after a commit has answered, and whatever happened since short of deleting the
   note, repeating the request (with any request id) is refused by the gate or answered with the
   same manifest and sequence, and changes nothing.
   */
  lemma RepeatedCommit(config: Config, w: World, steps: seq<Step>, manifestId: Id, session: bool, userId: Id,
      input: CommitInput,
                       next: Db, outcome: CommitOutcome)
    requires Inv(w.db) && EnabledRun(config, w, steps)
    requires IsManifestOf(w.db.manifests, manifestId, input.uploadId)
    requires SparesNote(config, w, steps, w.db.manifests[manifestId].noteId)
    requires CommitResult(Run(config, w, steps).db, session, userId, input, config.textHash, next, outcome)
    ensures next == Run(config, w, steps).db
    ensures CommitGate(next, session, userId, input).None? ==> outcome == CommittedAs(manifestId, w.db.manifests[manifestId])
  {
    hide UploadsOk, Run, AccessOf, CanEdit, Write;
    CommittedIsTerminal(config, w, steps, manifestId);
    assert IsManifestOf(next.manifests, manifestId, input.uploadId);
  }

  /** A commit that is written numbers its row in the shared log exactly as the log's own commit step does. */
  lemma CommitAppendsToTheLog(db: Db, owner: Id, input: CommitInput, textHash: string -> string, accepted: seq<Row>)
    requires input.uploadId in db.uploads && Write(db, owner, input, textHash).Written?
    ensures var written := Write(db, owner, input, textHash);
      var row := ManifestRow(db.uploads[input.uploadId], input.uploadId, input.requestId, written.manifest.firstSequence);
      && ManifestAdmitted(db.log, row)
      && HistoryMeaning.Apply(HistoryMeaning.History(db.log, accepted), HistoryMeaning.CommitStep(row))
         == HistoryMeaning.History(written.db.log, accepted + [row])
  {
    hide Append, OrderedRows, ReceivedBytes, Contiguous;
  }

  /** The chunk checks of a commit never fail for a complete upload: the hash, the section, the keys and the account decide. */
  lemma CompleteUploadCommits(db: Db, owner: Id, input: CommitInput, textHash: string -> string)
    requires Inv(db) && input.uploadId in db.uploads && db.uploads[input.uploadId].status.Complete?
    ensures Contiguous(ChunksOf(db.chunks, input.uploadId), db.uploads[input.uploadId].chunkCount)
    ensures var upload := db.uploads[input.uploadId];
      var rows := OrderedRows(ChunksOf(db.chunks, input.uploadId), upload.chunkCount);
      Write(db, owner, input, textHash).Written? <==>
        && textHash(Lines(StoredDescriptors(rows))) == upload.manifestHash
        && SectionRefusal(db.log, upload).None?
        && !KeyTaken(db, upload, input)
        && CanPay(db.accounts, owner, upload.totalCipherBytes)
  {
    hide Inv, UploadOk, ReceivedBytes, SectionRefusal, KeyTaken, OrderedRows, Append;
    var upload, rows := db.uploads[input.uploadId], ChunksOf(db.chunks, input.uploadId);
    UploadIsOk(db, input.uploadId);
    AllMeansContiguous(upload, rows);
  }

  lemma AllMeansContiguous(upload: Upload, rows: ChunkRows)
    requires UploadOk(upload, rows) && upload.status.Complete?
    ensures Contiguous(rows, upload.chunkCount) && ReceivedBytes(rows) == upload.totalCipherBytes
  {
    hide ReceivedBytes;
    CountMeansAll(upload, rows);
  }
}
