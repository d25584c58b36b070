/**
 What each content transaction may answer and leave, said on the rows alone: who is let in, what
 becomes of the upload, its chunks and its bytes, and what a commit writes.
 */
module ContentTerms {
  import opened Basics
  import opened Totals
  import opened SectionHistory
  import opened ManifestText
  import opened VerifiedContent
  import opened ContentStore

  /** An active owner or editor of an existing note. */
  predicate MayEdit(db: Db, noteId: Id, userId: Id) {
    && noteId in db.notes && MemberKey(noteId, userId) in db.members
    && db.members[MemberKey(noteId, userId)].status == Active && db.members[MemberKey(noteId, userId)].role in {Owner, Editor}
  }

  /** Neither deleted nor being rotated, and at the epoch the client thinks. */
  predicate Writable(db: Db, noteId: Id, epoch: nat) {
    noteId in db.notes && !db.notes[noteId].isDeleted && !db.notes[noteId].rotationFenced && db.notes[noteId].keyEpoch == epoch
  }

  /** Whether someone let in is turned away by the note's state, and with which answer. */
  predicate TurnedAway(db: Db, noteId: Id, epoch: nat, refusal: Refusal) {
    && noteId in db.notes
    && match refusal
       case Conflict => db.notes[noteId].isDeleted
       case RotationPending => !db.notes[noteId].isDeleted && db.notes[noteId].rotationFenced
       case StaleEpoch => !db.notes[noteId].isDeleted && !db.notes[noteId].rotationFenced && db.notes[noteId].keyEpoch != epoch
       case _ => false
  }

  /** The account statements touched nobody but this user, and moved these amounts. */
  predicate Shifts(before: map<Id, Account>, after: map<Id, Account>, owner: Id, used: int, reserved: int) {
    && (forall u :: u in before ==> u in after)
    && (forall u :: u in after && u != owner ==> u in before && after[u] == before[u])
    && (owner in after ==>
          var account := if owner in before then before[owner] else Account(0, 0);
          after[owner].used == account.used + used && after[owner].reserved == account.reserved + reserved)
    && (owner !in after ==> used == 0 && reserved == 0)
  }

  /** No counter changed; an account row may have been opened empty. */
  predicate CountersKept(before: map<Id, Account>, after: map<Id, Account>) {
    && (forall u :: u in before ==> u in after && after[u] == before[u])
    && (forall u :: u in after && u !in before ==> after[u] == Account(0, 0))
  }

  /** No upload, chunk, manifest, attachment, note or member changed. */
  predicate RowsKept(before: Db, after: Db) {
    && after.uploads == before.uploads && after.chunks == before.chunks && after.manifests == before.manifests
    && after.attachments == before.attachments && after.notes == before.notes && after.members == before.members
  }

  // ----- begin -----

  /** The name a section is stored under. */
  function SectionName(noteId: Id, sectionId: SectionRef): Id {
    match sectionId
    case Root => noteId
    case Named(id) => id
  }

  /** The section is the note's, live and old enough, or is the root section on its first use. */
  predicate HasSection(sections: map<Id, Section>, noteId: Id, sectionId: SectionRef, epoch: nat) {
    var stored := SectionName(noteId, sectionId);
    if stored in sections then sections[stored].noteId == noteId && !sections[stored].isDeleted && sections[stored].createdEpoch <= epoch
    else sectionId == Root
  }

  /** What the upload says of its content is what the request says. */
  predicate SaysSame(upload: Upload, input: BeginInput) {
    && upload.updateId == input.updateId && upload.noteId == input.noteId
    && upload.sectionId == SectionName(input.noteId, input.sectionId) && upload.keyEpoch == input.expectedKeyEpoch
    && upload.kind == input.kind && upload.formatVersion == input.formatVersion
    && upload.totalCipherBytes == input.totalCipherBytes && upload.chunkCount == input.chunkCount
    && upload.manifestHash == input.manifestHash && upload.checkpointSequenceCutoff == input.checkpointSequenceCutoff
  }

  predicate Taken(uploads: map<Id, Upload>, input: BeginInput) {
    input.uploadId in uploads || exists id :: id in uploads && uploads[id].updateId == input.updateId
  }

  predicate HasRoom(accounts: map<Id, Account>, owner: Id, bytes: nat, quota: nat) {
    var account := if owner in accounts then accounts[owner] else Account(0, 0);
    account.used + account.reserved + bytes <= quota
  }

  /** A new upload: everything it says is from the request, its crypto owner from the note. */
  predicate IsNew(upload: Upload, input: BeginInput, cryptoOwnerId: Id) {
    && SaysSame(upload, input) && upload.cryptoOwnerId == cryptoOwnerId && upload.ops == input.ops
    && upload.status == Receiving && upload.expiresAt == input.expiresAt
  }

  /** Given up before and taken up again: receiving until the new expiry, otherwise as it was. */
  predicate IsRevived(before: Upload, after: Upload, expiresAt: nat) {
    && before.status in {Expired, Aborted}
    && after == before.(status := Receiving, expiresAt := expiresAt)
  }

  /** The upload is receiving, without chunks, and its bytes are reserved for the note's owner. */
  predicate NowReceiving(before: Db, after: Db, uploadId: Id, bytes: nat, owner: Id) {
    && uploadId in after.uploads && after.uploads == before.uploads[uploadId := after.uploads[uploadId]]
    && uploadId !in after.chunks && after.chunks == before.chunks - {uploadId}
    && after.manifests == before.manifests && after.attachments == before.attachments
    && after.notes == before.notes && after.members == before.members && after.log.updates == before.log.updates
    && owner in after.accounts && Shifts(before.accounts, after.accounts, owner, 0, bytes)
  }

  predicate BeginAnswer(db: Db, session: bool, userId: Id, input: BeginInput, quota: nat, outcome: BeginOutcome) {
    var admitted := session && MayEdit(db, input.noteId, userId);
    var open := admitted && Writable(db, input.noteId, input.expectedKeyEpoch)
      && HasSection(db.log.sections, input.noteId, input.sectionId, input.expectedKeyEpoch);
    var same := input.uploadId in db.uploads && SaysSame(db.uploads[input.uploadId], input);
    var opens := !Taken(db.uploads, input) || (same && db.uploads[input.uploadId].status in {Expired, Aborted});
    var room := admitted && HasRoom(db.accounts, db.notes[input.noteId].ownerUserId, input.totalCipherBytes, quota);
    && (outcome == BeginRefused(Unauthorized) <==> !session)
    && (outcome.Created? <==> open && !Taken(db.uploads, input) && room)
    && (outcome.Existing? <==> open && same && (opens ==> room))
    && (outcome == BeginRefused(StorageLimit) <==> open && opens && !room)
    && (outcome == BeginRefused(Conflict) <==>
          || (admitted && TurnedAway(db, input.noteId, input.expectedKeyEpoch, Conflict))
          || (open && Taken(db.uploads, input) && !same))
    && (outcome == BeginRefused(Refusal.RotationPending) <==> admitted && TurnedAway(db, input.noteId, input.expectedKeyEpoch, Refusal.RotationPending))
    && (outcome == BeginRefused(Refusal.StaleEpoch) <==> admitted && TurnedAway(db, input.noteId, input.expectedKeyEpoch, Refusal.StaleEpoch))
  }

  predicate BeginLeaves(before: Db, after: Db, input: BeginInput, outcome: BeginOutcome) {
    match outcome
    case Created(view) =>
      && input.noteId in before.notes && input.uploadId !in before.uploads
      && NowReceiving(before, after, input.uploadId, input.totalCipherBytes, before.notes[input.noteId].ownerUserId)
      && IsNew(after.uploads[input.uploadId], input, before.notes[input.noteId].cryptoOwnerId)
      && view == View(after.uploads[input.uploadId], {})
    case Existing(view) =>
      && input.noteId in before.notes && input.uploadId in before.uploads
      && (if before.uploads[input.uploadId].status in {Expired, Aborted} then
            && NowReceiving(before, after, input.uploadId, input.totalCipherBytes, before.notes[input.noteId].ownerUserId)
            && IsRevived(before.uploads[input.uploadId], after.uploads[input.uploadId], input.expiresAt)
            && view == View(after.uploads[input.uploadId], {})
          else
            && RowsKept(before, after) && after.accounts == before.accounts && after.log.updates == before.log.updates
            && view == View(before.uploads[input.uploadId], if input.uploadId in before.chunks then before.chunks[input.uploadId].Keys else {}))
    case BeginRefused(_) =>
      RowsKept(before, after) && after.log.updates == before.log.updates && CountersKept(before.accounts, after.accounts)
  }

  lemma BeginTerms(db: Db, session: bool, userId: Id, input: BeginInput, quota: nat)
    ensures var (next, outcome) := Begun(db, session, userId, input, quota);
      BeginAnswer(db, session, userId, input, quota, outcome) && BeginLeaves(db, next, input, outcome)
  {
    BeginAnswers(db, session, userId, input, quota);
    BeginChanges(db, session, userId, input, quota);
  }

  lemma BeginAnswers(db: Db, session: bool, userId: Id, input: BeginInput, quota: nat)
    ensures BeginAnswer(db, session, userId, input, quota, Begun(db, session, userId, input, quota).1)
  {
    hide BegunInSection, SaysSame, Taken, HasRoom, EnsuredSections, HasSection, Usable;
    SectionIsUsable(db.log, input);
    var access := AccessOf(db, input.noteId, userId);
    if session && BeginGate(access, input).None? {
      var ensured := db.(log := db.log.(sections := EnsuredSections(db.log, input.noteId, input.sectionId, input.expectedKeyEpoch)));
      SectionBeginAnswers(ensured, access.value, StorageSectionId(input.noteId, input.sectionId), input, quota);
    }
  }

  lemma SectionIsUsable(log: Log, input: BeginInput)
    ensures Usable(EnsuredSections(log, input.noteId, input.sectionId, input.expectedKeyEpoch), StorageSectionId(input.noteId, input.sectionId),
                   input.noteId, input.expectedKeyEpoch)
      <==> HasSection(log.sections, input.noteId, input.sectionId, input.expectedKeyEpoch)
  {
  }

  lemma SectionBeginAnswers(db: Db, access: Access, stored: Id, input: BeginInput, quota: nat)
    requires stored == StorageSectionId(input.noteId, input.sectionId)
    ensures var outcome := BegunInSection(db, access, stored, input, quota).1;
      var same := input.uploadId in db.uploads && SaysSame(db.uploads[input.uploadId], input);
      var opens := !Taken(db.uploads, input) || (same && db.uploads[input.uploadId].status in {Expired, Aborted});
      var room := HasRoom(db.accounts, access.ownerUserId, input.totalCipherBytes, quota);
      && (outcome.Created? <==> !Taken(db.uploads, input) && room)
      && (outcome.Existing? <==> same && (opens ==> room))
      && (outcome == BeginRefused(StorageLimit) <==> opens && !room)
      && (outcome == BeginRefused(Conflict) <==> Taken(db.uploads, input) && !same)
      && (outcome.BeginRefused? ==> outcome.refusal in {StorageLimit, Conflict})
  {
    hide ViewOf, SaysSame, SameUpload;
    if input.uploadId in db.uploads {
      SameMeansSame(db.uploads[input.uploadId], input, stored);
    }
  }

  lemma BeginChanges(db: Db, session: bool, userId: Id, input: BeginInput, quota: nat)
    ensures BeginLeaves(db, Begun(db, session, userId, input, quota).0, input, Begun(db, session, userId, input, quota).1)
  {
    hide Usable, EnsuredSections, CanEdit, BegunInSection, BeginLeaves;
    var access := AccessOf(db, input.noteId, userId);
    if session && BeginGate(access, input).None? {
      var ensured := db.(log := db.log.(sections := EnsuredSections(db.log, input.noteId, input.sectionId, input.expectedKeyEpoch)));
      if Usable(ensured.log.sections, StorageSectionId(input.noteId, input.sectionId), input.noteId, input.expectedKeyEpoch) {
        AdmittedAccess(db, userId, input);
        assert access.Some?;
        SectionBeginChanges(db, ensured, access.value, StorageSectionId(input.noteId, input.sectionId), input, quota);
      } else {
        NothingBegun(db, ensured, input, NotFound);
      }
    } else {
      NothingBegun(db, db, input, if !session then Unauthorized else BeginGate(access, input).value);
    }
  }

  lemma AdmittedAccess(db: Db, userId: Id, input: BeginInput)
    requires BeginGate(AccessOf(db, input.noteId, userId), input).None?
    ensures input.noteId in db.notes && AccessOf(db, input.noteId, userId).Some?
    ensures AccessOf(db, input.noteId, userId).value.ownerUserId == db.notes[input.noteId].ownerUserId
    ensures AccessOf(db, input.noteId, userId).value.cryptoOwnerId == db.notes[input.noteId].cryptoOwnerId
  {
  }

  lemma NothingBegun(before: Db, after: Db, input: BeginInput, refusal: Refusal)
    requires after == before.(log := after.log) && after.log.updates == before.log.updates
    ensures BeginLeaves(before, after, input, BeginRefused(refusal))
  {
  }

  lemma SectionBeginChanges(before: Db, db: Db, access: Access, stored: Id, input: BeginInput, quota: nat)
    requires db == before.(log := db.log) && db.log.updates == before.log.updates && input.noteId in db.notes
    requires access.ownerUserId == db.notes[input.noteId].ownerUserId && access.cryptoOwnerId == db.notes[input.noteId].cryptoOwnerId
    requires stored == StorageSectionId(input.noteId, input.sectionId)
    ensures var (next, outcome) := BegunInSection(db, access, stored, input, quota);
      BeginLeaves(before, next, input, outcome)
  {
    hide Opened, NowReceiving, SaysSame, SameUpload, Claimed, CountersKept, IsNew, EnsuredAccount, RowsKept;
    var taken := Claimed(db.uploads, input);
    ClaimedIfThere(db, input);
    if input.uploadId in db.uploads {
      SameMeansSame(db.uploads[input.uploadId], input, stored);
    }
    var upload := if taken && input.uploadId in db.uploads then db.uploads[input.uploadId].(status := Receiving, expiresAt := input.expiresAt)
                  else NewUpload(input, stored, access.cryptoOwnerId);
    NewSays(input, stored, access.cryptoOwnerId);
    OpenedReceives(before, db, access.ownerUserId, input.uploadId, upload, quota);
    NothingKept(before, db, access.ownerUserId);
    var none: ChunkRows := map[];
    assert none.Keys == {};
  }

  lemma ClaimedIfThere(db: Db, input: BeginInput)
    ensures input.uploadId in db.uploads ==> Claimed(db.uploads, input)
  {
  }

  lemma NothingKept(before: Db, db: Db, owner: Id)
    requires db == before.(log := db.log)
    ensures RowsKept(before, db) && RowsKept(before, db.(accounts := EnsuredAccount(db.accounts, owner)))
    ensures CountersKept(before.accounts, db.accounts) && CountersKept(before.accounts, EnsuredAccount(db.accounts, owner))
  {
  }

  lemma SameMeansSame(upload: Upload, input: BeginInput, stored: Id)
    requires stored == StorageSectionId(input.noteId, input.sectionId)
    ensures SameUpload(upload, input, stored) <==> SaysSame(upload, input)
    ensures SaysSame(upload, input) ==> upload.totalCipherBytes == input.totalCipherBytes
  {
  }

  lemma NewSays(input: BeginInput, stored: Id, cryptoOwnerId: Id)
    requires stored == StorageSectionId(input.noteId, input.sectionId)
    ensures IsNew(NewUpload(input, stored, cryptoOwnerId), input, cryptoOwnerId)
  {
  }

  lemma OpenedReceives(before: Db, db: Db, owner: Id, uploadId: Id, upload: Upload, quota: nat)
    requires db == before.(log := db.log) && db.log.updates == before.log.updates
    ensures var next := Opened(db, owner, uploadId, upload, quota);
      && (next.Some? ==>
            && NowReceiving(before, next.value, uploadId, upload.totalCipherBytes, owner)
            && next.value.uploads[uploadId] == upload && ChunksOf(next.value.chunks, uploadId) == map[])
  {
  }

  // ----- giving up -----

  /** The upload keeps everything but its status, its chunks are gone and its bytes given back. */
  predicate GivenUp(before: Db, after: Db, uploadId: Id, status: UploadStatus) {
    && uploadId in before.uploads && before.uploads[uploadId].noteId in before.notes
    && after.uploads == before.uploads[uploadId := before.uploads[uploadId].(status := status)]
    && after.chunks == before.chunks - {uploadId}
    && after.manifests == before.manifests && after.attachments == before.attachments
    && after.notes == before.notes && after.members == before.members && after.log == before.log
    && var owner, bytes := before.notes[before.uploads[uploadId].noteId].ownerUserId, before.uploads[uploadId].totalCipherBytes;
    && after.accounts == (if owner !in before.accounts then before.accounts
                          else before.accounts[owner := Account(before.accounts[owner].used, Max(0, before.accounts[owner].reserved - bytes))])
  }

  /** The statuses in which an upload holds bytes. */
  predicate HoldsBytes(upload: Upload) { upload.status in {Receiving, Complete, UploadStatus.Invalid} }

  predicate StatusAnswer(db: Db, uploadId: Id, userId: Id, now: nat, next: Db, view: Option<View>) {
    && (view.Some? <==> uploadId in db.uploads && MayEdit(db, db.uploads[uploadId].noteId, userId))
    && (view.Some? && HoldsBytes(db.uploads[uploadId]) && db.uploads[uploadId].expiresAt <= now ==>
          GivenUp(db, next, uploadId, Expired) && view.value == View(next.uploads[uploadId], {}))
    && (view.Some? && !(HoldsBytes(db.uploads[uploadId]) && db.uploads[uploadId].expiresAt <= now) ==>
          next == db && view.value == View(db.uploads[uploadId], if uploadId in db.chunks then db.chunks[uploadId].Keys else {}))
    && (view.None? ==> next == db)
  }

  lemma StatusTerms(db: Db, uploadId: Id, userId: Id, now: nat)
    ensures var (next, view) := StatusRead(db, uploadId, userId, now); StatusAnswer(db, uploadId, userId, now, next, view)
  {
  }

  predicate AbortAnswer(db: Db, session: bool, userId: Id, uploadId: Id, next: Db, outcome: AbortOutcome) {
    && (outcome == AbortRefused(Unauthorized) <==> !session)
    && (outcome == AbortRefused(NotFound) <==> session && !(uploadId in db.uploads && MayEdit(db, db.uploads[uploadId].noteId, userId)))
    && (outcome.AbortDone? <==>
          session && uploadId in db.uploads && MayEdit(db, db.uploads[uploadId].noteId, userId) && db.uploads[uploadId].status != Committed)
    && (outcome.AbortDone? && HoldsBytes(db.uploads[uploadId]) ==> GivenUp(db, next, uploadId, Aborted))
    && (!outcome.AbortDone? || !HoldsBytes(db.uploads[uploadId]) ==> next == db)
  }

  lemma AbortTerms(db: Db, session: bool, userId: Id, uploadId: Id)
    ensures var (next, outcome) := AbortedBy(db, session, userId, uploadId); AbortAnswer(db, session, userId, uploadId, next, outcome)
  {
  }

  /** What a sweep may take, and what it does with it. */
  lemma ExpiryTerms(db: Db, uploadId: Id, cutoff: nat)
    ensures Expirable(db, uploadId, cutoff) <==>
      && uploadId in db.uploads && db.uploads[uploadId].noteId in db.notes
      && HoldsBytes(db.uploads[uploadId]) && db.uploads[uploadId].expiresAt <= cutoff
    ensures Expirable(db, uploadId, cutoff) ==> GivenUp(db, ExpireOne(db, uploadId), uploadId, Expired)
  {
  }

  // ----- chunks -----

  function RowsNow(db: Db, uploadId: Id): ChunkRows { if uploadId in db.chunks then db.chunks[uploadId] else map[] }

  /** The request reaches the rows: someone let in, a writable note at the upload's epoch, and an upload that takes chunks. */
  predicate TakesChunks(db: Db, session: bool, userId: Id, uploadId: Id) {
    && session && uploadId in db.uploads && MayEdit(db, db.uploads[uploadId].noteId, userId)
    && Writable(db, db.uploads[uploadId].noteId, db.uploads[uploadId].keyEpoch)
    && db.uploads[uploadId].status in {Receiving, Complete}
  }

  ghost predicate ChunkAnswer(db: Db, session: bool, userId: Id, uploadId: Id, chunk: StoredChunk, next: Db, outcome: ChunkOutcome) {
    var rows := RowsNow(db, uploadId);
    var there := chunk.chunkIndex in rows;
    var same := there && rows[chunk.chunkIndex].cipherLength == chunk.cipherLength
      && rows[chunk.chunkIndex].cipherHash == chunk.cipherHash && rows[chunk.chunkIndex].nonce == chunk.nonce;
    var takes := TakesChunks(db, session, userId, uploadId);
    && (outcome.Raced? <==> takes && same)
    && (outcome == ChunkRefused(ChunkConflict) <==> takes && there && !same)
    && (outcome.Stored? || outcome == ChunkRefused(ManifestMismatch) <==> takes && !there)
    && (!takes || there ==> next == db)
    && (takes && !there ==> ChunkAdded(db, next, uploadId, chunk, outcome))
  }

  /** The row is in, and the upload is invalid beyond its declared bytes, complete at count and bytes, else as it was. */
  ghost predicate ChunkAdded(db: Db, next: Db, uploadId: Id, chunk: StoredChunk, outcome: ChunkOutcome)
    requires uploadId in db.uploads
  {
    var rows := RowsNow(db, uploadId)[chunk.chunkIndex := chunk];
    var upload, bytes := db.uploads[uploadId], Total(RowLengths(rows));
    && (outcome.Stored? <==> bytes <= upload.totalCipherBytes)
    && next == db.(chunks := db.chunks[uploadId := rows],
                   uploads := db.uploads[uploadId := upload.(status :=
                     if bytes > upload.totalCipherBytes then UploadStatus.Invalid
                     else if |rows| == upload.chunkCount && bytes == upload.totalCipherBytes then Complete
                     else upload.status)])
  }

  lemma ChunkTerms(db: Db, session: bool, userId: Id, uploadId: Id, chunk: StoredChunk)
    ensures var (next, outcome) := Registered(db, session, userId, uploadId, chunk);
      ChunkAnswer(db, session, userId, uploadId, chunk, next, outcome)
  {
    hide Total, RowLengths;
  }

  // ----- commit -----

  /** The manifest says what the upload declared, under the sequence it was given. */
  predicate ManifestSays(m: Manifest, uploadId: Id, upload: Upload) {
    && m.uploadId == uploadId && m.updateId == upload.updateId && m.noteId == upload.noteId
    && m.sectionId == upload.sectionId && m.keyEpoch == upload.keyEpoch && m.kind == upload.kind
    && m.totalCipherBytes == upload.totalCipherBytes && m.chunkCount == upload.chunkCount
    && m.manifestHash == upload.manifestHash && m.checkpointSequenceCutoff == upload.checkpointSequenceCutoff
  }

  /** The log row names the manifest and says what it says; the crypto owner and meaning are the upload's. */
  predicate RowNames(row: Row, manifestId: Id, m: Manifest, upload: Upload) {
    && row.updateId == m.updateId && row.noteId == m.noteId && row.sectionId == m.sectionId
    && row.serverSequence == m.firstSequence && row.keyEpoch == m.keyEpoch && row.kind == m.kind
    && row.checkpointSequenceCutoff == m.checkpointSequenceCutoff
    && row.inlineCipher == None && row.nonce == None
    && row.manifestId == Some(manifestId) && row.uploadId == Some(m.uploadId)
    && row.totalCipherBytes == Some(m.totalCipherBytes) && row.chunkCount == Some(m.chunkCount)
    && row.manifestHash == Some(m.manifestHash)
    && row.cryptoOwnerId == upload.cryptoOwnerId && row.ops == upload.ops
  }

  /** A checkpoint's row takes the older rows of its scope up to its cutoff along. */
  predicate TakenAlong(earlier: Row, m: Manifest) {
    && m.kind == Checkpoint && m.checkpointSequenceCutoff.Some? && 0 < m.checkpointSequenceCutoff.value
    && earlier.noteId == m.noteId && earlier.sectionId == m.sectionId && earlier.keyEpoch == m.keyEpoch
    && earlier.serverSequence <= m.checkpointSequenceCutoff.value && earlier.updateId != m.updateId
  }

  /** Manifest, log row, sequence, compaction, usage and status, and nothing else. */
  predicate CommitLeaves(before: Db, after: Db, owner: Id, uploadId: Id, manifestId: Id, m: Manifest) {
    && uploadId in before.uploads && before.uploads[uploadId].status == Complete
    && var upload := before.uploads[uploadId];
    && after.uploads == before.uploads[uploadId := upload.(status := Committed)]
    && ManifestSays(m, uploadId, upload)
    && manifestId !in before.manifests && after.manifests == before.manifests[manifestId := m]
    && upload.sectionId in before.log.sections
    && m.firstSequence == before.log.sections[upload.sectionId].currentSequence + 1
    && after.log.sections == before.log.sections[upload.sectionId :=
         before.log.sections[upload.sectionId].(currentSequence := m.firstSequence)]
    && m.updateId !in before.log.updates && m.updateId in after.log.updates
    && RowNames(after.log.updates[m.updateId], manifestId, m, upload)
    && (forall id :: id in after.log.updates && id != m.updateId ==> id in before.log.updates && after.log.updates[id] == before.log.updates[id])
    && (forall id :: id in before.log.updates ==> (id !in after.log.updates <==> TakenAlong(before.log.updates[id], m)))
    && owner in before.accounts && upload.totalCipherBytes <= before.accounts[owner].reserved
    && after.accounts == before.accounts[owner := Account(before.accounts[owner].used + upload.totalCipherBytes,
                                                          before.accounts[owner].reserved - upload.totalCipherBytes)]
    && after.chunks == before.chunks && after.attachments == before.attachments
    && after.notes == before.notes && after.members == before.members
  }

  lemma WriteLeaves(db: Db, owner: Id, input: CommitInput, textHash: string -> string)
    requires input.uploadId in db.uploads && Write(db, owner, input, textHash).Written?
    ensures var written := Write(db, owner, input, textHash);
      CommitLeaves(db, written.db, owner, input.uploadId, input.requestId, written.manifest)
  {
    hide ReceivedBytes, Contiguous, OrderedRows;
  }

  /** Who gets as far as the rows of a commit. */
  predicate MayCommit(db: Db, session: bool, userId: Id, input: CommitInput) {
    && session && input.uploadId in db.uploads && MayEdit(db, db.uploads[input.uploadId].noteId, userId)
    && Writable(db, db.uploads[input.uploadId].noteId, input.expectedKeyEpoch)
    && db.uploads[input.uploadId].updateId == input.updateId && db.uploads[input.uploadId].keyEpoch == input.expectedKeyEpoch
  }

  /** All chunks, in order, hashing to the declared hash. */
  ghost predicate ContentIsThere(upload: Upload, rows: ChunkRows, textHash: string -> string) {
    && upload.status == Complete
    && |rows| == upload.chunkCount && (forall i :: 0 <= i < upload.chunkCount ==> i in rows)
    && Total(RowLengths(rows)) == upload.totalCipherBytes
    && textHash(Lines(StoredDescriptors(seq(upload.chunkCount, i requires 0 <= i < upload.chunkCount => rows[i])))) == upload.manifestHash
  }

  /** The section is the note's and live, and a checkpoint's cutoff does not run ahead of it. */
  predicate SectionIsThere(log: Log, upload: Upload) {
    && upload.sectionId in log.sections && log.sections[upload.sectionId].noteId == upload.noteId && !log.sections[upload.sectionId].isDeleted
    && (upload.kind == Checkpoint ==>
          upload.checkpointSequenceCutoff.Some? && upload.checkpointSequenceCutoff.value <= log.sections[upload.sectionId].currentSequence)
  }

  /** Nothing the commit writes is there yet. */
  predicate NamesAreFree(db: Db, upload: Upload, manifestId: Id) {
    && manifestId !in db.manifests && upload.updateId !in db.log.updates
    && forall id :: id in db.manifests ==> db.manifests[id].updateId != upload.updateId
  }

  ghost predicate MayWriteManifest(db: Db, owner: Id, input: CommitInput, textHash: string -> string)
    requires input.uploadId in db.uploads
  {
    var upload := db.uploads[input.uploadId];
    && ContentIsThere(upload, RowsNow(db, input.uploadId), textHash)
    && SectionIsThere(db.log, upload) && NamesAreFree(db, upload, input.requestId)
    && owner in db.accounts && upload.totalCipherBytes <= db.accounts[owner].reserved
  }

  lemma WrittenIff(db: Db, owner: Id, input: CommitInput, textHash: string -> string)
    requires input.uploadId in db.uploads
    ensures Write(db, owner, input, textHash).Written? <==> MayWriteManifest(db, owner, input, textHash)
  {
    hide ContentIsThere, SectionIsThere, NamesAreFree, RowsRefusal, SectionRefusal, KeyTaken, Append;
    var upload := db.uploads[input.uploadId];
    ContentAccepted(upload, RowsNow(db, input.uploadId), textHash);
    SectionAccepted(db.log, upload);
    NamesAccepted(db, upload, input);
  }

  lemma ContentAccepted(upload: Upload, rows: ChunkRows, textHash: string -> string)
    ensures RowsRefusal(upload, rows, textHash).None? <==> ContentIsThere(upload, rows, textHash)
  {
    hide Total, Lines, StoredDescriptors;
    if Contiguous(rows, upload.chunkCount) {
      assert OrderedRows(rows, upload.chunkCount) == seq(upload.chunkCount, i requires 0 <= i < upload.chunkCount => rows[i]);
    }
  }

  lemma SectionAccepted(log: Log, upload: Upload)
    ensures SectionRefusal(log, upload).None? <==> SectionIsThere(log, upload)
  {
  }

  lemma NamesAccepted(db: Db, upload: Upload, input: CommitInput)
    ensures !KeyTaken(db, upload, input) <==> NamesAreFree(db, upload, input.requestId)
  {
  }

  predicate HasBeenCommitted(db: Db, uploadId: Id) { exists id :: id in db.manifests && db.manifests[id].uploadId == uploadId }

  /**
   A commit answers the manifest that is there, or writes one if and only if everything it needs is
   there, and answers it; otherwise it is refused and leaves no trace.
   */
  ghost predicate CommitAnswer(before: Db, session: bool, userId: Id, input: CommitInput, textHash: string -> string, after: Db,
      outcome: CommitOutcome)
  {
    var there := HasBeenCommitted(before, input.uploadId);
    && (outcome.CommittedAs? <==>
          && MayCommit(before, session, userId, input)
          && (there || MayWriteManifest(before, before.notes[before.uploads[input.uploadId].noteId].ownerUserId, input, textHash)))
    && (!outcome.CommittedAs? ==> after == before)
    && (outcome.CommittedAs? && there ==>
          && after == before && outcome.manifestId in before.manifests
          && before.manifests[outcome.manifestId] == outcome.manifest && outcome.manifest.uploadId == input.uploadId)
    && (outcome.CommittedAs? && !there ==>
          && outcome.manifestId == input.requestId
          && CommitLeaves(before, after, before.notes[before.uploads[input.uploadId].noteId].ownerUserId, input.uploadId,
                          outcome.manifestId, outcome.manifest))
  }

  lemma CommitTermsHold(db: Db, session: bool, userId: Id, input: CommitInput, textHash: string -> string, next: Db, outcome: CommitOutcome)
    requires CommitResult(db, session, userId, input, textHash, next, outcome)
    ensures CommitAnswer(db, session, userId, input, textHash, next, outcome)
  {
    hide Write, CommitLeaves, MayWriteManifest;
    GateIsMayCommit(db, session, userId, input);
    if CommitGate(db, session, userId, input).None? && !HasManifest(db.manifests, input.uploadId) {
      var owner := AccessOf(db, db.uploads[input.uploadId].noteId, userId).value.ownerUserId;
      WrittenIff(db, owner, input, textHash);
      if Write(db, owner, input, textHash).Written? {
        WriteLeaves(db, owner, input, textHash);
      }
    }
  }

  lemma GateIsMayCommit(db: Db, session: bool, userId: Id, input: CommitInput)
    ensures CommitGate(db, session, userId, input).None? <==> MayCommit(db, session, userId, input)
  {
  }
}
