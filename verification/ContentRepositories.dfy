/**
 The repositories over the content tables, statement by statement: each method is one
 transaction, leaves exactly what the transaction function of `ContentStore` says, and keeps to
 the terms of `ContentTerms`.
 */
module ContentRepositories {
  import opened Basics
  import opened Totals
  import opened SectionHistory
  import opened ManifestText
  import opened VerifiedContent
  import opened ContentStore
  import opened ContentTerms

  class PostgresContent {
    var notes: map<Id, Note>
    var members: map<MemberKey, Membership>
    var sections: map<Id, Section>
    var updates: map<Id, Row>
    var uploads: map<Id, Upload>
    var chunks: map<Id, ChunkRows>
    var manifests: map<Id, Manifest>
    var attachments: map<Id, Attachment>
    var accounts: map<Id, Account>
    const quota: nat
    const textHash: string -> string

    function Tables(): Db
      reads this
    {
      Db(notes, members, Log(sections, updates), uploads, chunks, manifests, attachments, accounts)
    }

    constructor (quota: nat, textHash: string -> string)
      ensures Tables() == Db(map[], map[], Log(map[], map[]), map[], map[], map[], map[], map[])
      ensures this.quota == quota && this.textHash == textHash
    {
      this.quota, this.textHash := quota, textHash;
      notes, members, sections, updates := map[], map[], map[], map[];
      uploads, chunks, manifests, attachments, accounts := map[], map[], map[], map[], map[];
    }

    // ----- the storage account -----

    method ReserveStorage(userId: Id, bytes: nat) returns (reserved: bool)
      modifies this`accounts
      ensures (accounts, reserved) == Reserve(old(accounts), userId, bytes, quota)
      ensures reserved <==> HasRoom(old(accounts), userId, bytes, quota)
      ensures userId in accounts
      ensures if reserved then Shifts(old(accounts), accounts, userId, 0, bytes) else CountersKept(old(accounts), accounts)
    {
      if userId !in accounts {
        accounts := accounts[userId := Account(0, 0)];
      }
      var account := accounts[userId];
      if account.used + account.reserved + bytes > quota {
        return false;
      }
      accounts := accounts[userId := account.(reserved := account.reserved + bytes)];
      return true;
    }

    method ReleaseStorage(userId: Id, bytes: nat)
      modifies this`accounts
      ensures accounts == Release(old(accounts), userId, bytes)
      ensures accounts.Keys == old(accounts).Keys && accounts - {userId} == old(accounts) - {userId}
      ensures userId in accounts ==>
        && accounts[userId].used == old(accounts)[userId].used
        && accounts[userId].reserved == if bytes <= old(accounts)[userId].reserved then old(accounts)[userId].reserved - bytes else 0
    {
      if userId in accounts {
        var account := accounts[userId];
        accounts := accounts[userId := account.(reserved := if account.reserved >= bytes then account.reserved - bytes else 0)];
      }
    }

    // ----- uploads -----

    method EnsureSection(noteId: Id, sectionId: SectionRef, keyEpoch: nat) returns (found: bool)
      modifies this`sections
      ensures sections == EnsuredSections(Log(old(sections), updates), noteId, sectionId, keyEpoch)
      ensures found <==> Usable(sections, StorageSectionId(noteId, sectionId), noteId, keyEpoch)
      ensures found <==> HasSection(old(sections), noteId, sectionId, keyEpoch)
    {
      if sectionId.Root? && noteId !in sections {
        sections := sections[noteId := Section(noteId, keyEpoch, 0, false)];
      }
      var stored := StorageSectionId(noteId, sectionId);
      found := stored in sections && sections[stored].noteId == noteId
        && !sections[stored].isDeleted && sections[stored].createdEpoch <= keyEpoch;
    }

    method Begin(session: bool, userId: Id, input: BeginInput) returns (outcome: BeginOutcome)
      modifies this
      ensures (Tables(), outcome) == Begun(old(Tables()), session, userId, input, quota)
      ensures BeginAnswer(old(Tables()), session, userId, input, quota, outcome)
      ensures BeginLeaves(old(Tables()), Tables(), input, outcome)
    {
      hide SameUpload, Claimed, EnsuredSections, Usable, AccessOf, Reserve, BegunInSection, BeginAnswer, BeginLeaves;
      BeginTerms(Tables(), session, userId, input, quota);
      if !session {
        return BeginRefused(Unauthorized);
      }
      var access := AccessOf(Tables(), input.noteId, userId);
      var gate := BeginGate(access, input);
      if gate.Some? {
        return BeginRefused(gate.value);
      }
      var found := EnsureSection(input.noteId, input.sectionId, input.expectedKeyEpoch);
      if !found {
        return BeginRefused(NotFound);
      }
      outcome := BeginInSection(access.value, StorageSectionId(input.noteId, input.sectionId), input);
    }

    method BeginInSection(access: Access, stored: Id, input: BeginInput) returns (outcome: BeginOutcome)
      modifies this`accounts, this`chunks, this`uploads
      ensures (Tables(), outcome) == BegunInSection(old(Tables()), access, stored, input, quota)
    {
      hide SameUpload;
      if Claimed(uploads, input) {
        if input.uploadId !in uploads || !SameUpload(uploads[input.uploadId], input, stored) {
          return BeginRefused(Conflict);
        }
        var existing := uploads[input.uploadId];
        if existing.status.Expired? || existing.status.Aborted? {
          var reserved := ReserveStorage(access.ownerUserId, existing.totalCipherBytes);
          if !reserved {
            return BeginRefused(StorageLimit);
          }
          chunks := chunks - {input.uploadId};
          uploads := uploads[input.uploadId := existing.(status := Receiving, expiresAt := input.expiresAt)];
        }
        return Existing(ViewOf(Tables(), input.uploadId));
      }
      var reserved := ReserveStorage(access.ownerUserId, input.totalCipherBytes);
      if !reserved {
        return BeginRefused(StorageLimit);
      }
      chunks := chunks - {input.uploadId};
      uploads := uploads[input.uploadId := NewUpload(input, stored, access.cryptoOwnerId)];
      return Created(ViewOf(Tables(), input.uploadId));
    }

    /** What abort, status and the sweep share. */
    method Close(owner: Id, uploadId: Id, status: UploadStatus)
      requires uploadId in uploads
      modifies this`accounts, this`chunks, this`uploads
      ensures Tables() == Closed(old(Tables()), owner, uploadId, status)
    {
      ReleaseStorage(owner, uploads[uploadId].totalCipherBytes);
      chunks := chunks - {uploadId};
      uploads := uploads[uploadId := uploads[uploadId].(status := status)];
    }

    method Status(uploadId: Id, userId: Id, now: nat) returns (view: Option<View>)
      modifies this`accounts, this`chunks, this`uploads
      ensures (Tables(), view) == StatusRead(old(Tables()), uploadId, userId, now)
      ensures StatusAnswer(old(Tables()), uploadId, userId, now, Tables(), view)
    {
      hide StatusAnswer;
      StatusTerms(Tables(), uploadId, userId, now);
      if uploadId !in uploads {
        return None;
      }
      var access := AccessOf(Tables(), uploads[uploadId].noteId, userId);
      if !CanEdit(access) {
        return None;
      }
      if Reserves(uploads[uploadId].status) && uploads[uploadId].expiresAt <= now {
        Close(access.value.ownerUserId, uploadId, Expired);
      }
      return Some(ViewOf(Tables(), uploadId));
    }

    method RegisterChunk(session: bool, userId: Id, uploadId: Id, chunk: StoredChunk) returns (outcome: ChunkOutcome)
      modifies this`chunks, this`uploads
      ensures (Tables(), outcome) == Registered(old(Tables()), session, userId, uploadId, chunk)
      ensures ChunkAnswer(old(Tables()), session, userId, uploadId, chunk, Tables(), outcome)
    {
      hide ChunkAnswer;
      ChunkTerms(Tables(), session, userId, uploadId, chunk);
      var gate := ChunkGate(Tables(), session, userId, uploadId);
      if gate.Some? {
        return ChunkRefused(gate.value);
      }
      var rows := ChunksOf(chunks, uploadId);
      if chunk.chunkIndex in rows {
        return if SameChunk(rows[chunk.chunkIndex], chunk) then Raced else ChunkRefused(ChunkConflict);
      }
      outcome := InsertChunk(uploadId, rows[chunk.chunkIndex := chunk]);
    }

    /** Write the rows and compare their aggregate with what was declared. */
    method InsertChunk(uploadId: Id, rows: ChunkRows) returns (outcome: ChunkOutcome)
      requires uploadId in uploads
      modifies this`chunks, this`uploads
      ensures chunks == old(chunks)[uploadId := rows]
      ensures uploads == old(uploads)[uploadId := old(uploads)[uploadId].(status := StatusAfter(old(uploads)[uploadId], rows))]
      ensures outcome == if ReceivedBytes(rows) > old(uploads)[uploadId].totalCipherBytes then ChunkRefused(ManifestMismatch) else Stored
    {
      chunks := chunks[uploadId := rows];
      var bytes := Sum(RowLengths(rows));
      var upload := uploads[uploadId];
      if bytes > upload.totalCipherBytes {
        uploads := uploads[uploadId := upload.(status := Invalid)];
        return ChunkRefused(ManifestMismatch);
      }
      if |rows| == upload.chunkCount && bytes == upload.totalCipherBytes {
        uploads := uploads[uploadId := upload.(status := Complete)];
      }
      return Stored;
    }

    method Abort(session: bool, userId: Id, uploadId: Id) returns (outcome: AbortOutcome)
      modifies this`accounts, this`chunks, this`uploads
      ensures (Tables(), outcome) == AbortedBy(old(Tables()), session, userId, uploadId)
      ensures AbortAnswer(old(Tables()), session, userId, uploadId, Tables(), outcome)
    {
      hide AbortAnswer;
      AbortTerms(Tables(), session, userId, uploadId);
      var gate := AbortGate(Tables(), session, userId, uploadId);
      if gate.Some? {
        return AbortRefused(gate.value);
      }
      if Reserves(uploads[uploadId].status) {
        Close(AccessOf(Tables(), uploads[uploadId].noteId, userId).value.ownerUserId, uploadId, Aborted);
      }
      return AbortDone;
    }

    // ----- commit -----

    method CheckRows(upload: Upload, rows: ChunkRows) returns (refusal: Option<Refusal>)
      ensures refusal == RowsRefusal(upload, rows, textHash)
    {
      if !upload.status.Complete? {
        return Some(ChunkMissing);
      }
      var total := Sum(RowLengths(rows));
      if |rows| != upload.chunkCount || (exists i :: 0 <= i < upload.chunkCount && i !in rows) || total != upload.totalCipherBytes {
        return Some(ChunkMissing);
      }
      var digest := textHash(Lines(StoredDescriptors(OrderedRows(rows, upload.chunkCount))));
      return if digest != upload.manifestHash then Some(ManifestMismatch) else None;
    }

    method Commit(session: bool, userId: Id, input: CommitInput) returns (outcome: CommitOutcome)
      modifies this
      ensures CommitResult(old(Tables()), session, userId, input, textHash, Tables(), outcome)
      ensures CommitAnswer(old(Tables()), session, userId, input, textHash, Tables(), outcome)
    {
      hide AccessOf, Write, CommitAnswer;
      ghost var before := Tables();
      outcome := AnswerOrWrite(session, userId, input);
      CommitTermsHold(before, session, userId, input, textHash, Tables(), outcome);
    }

    method AnswerOrWrite(session: bool, userId: Id, input: CommitInput) returns (outcome: CommitOutcome)
      modifies this
      ensures CommitResult(old(Tables()), session, userId, input, textHash, Tables(), outcome)
    {
      hide AccessOf, Write;
      var gate := CommitGate(Tables(), session, userId, input);
      if gate.Some? {
        return CommitRefused(gate.value);
      }
      if HasManifest(manifests, input.uploadId) {
        var id :| id in manifests && manifests[id].uploadId == input.uploadId;
        return CommittedAs(id, manifests[id]);
      }
      outcome := WriteManifest(AccessOf(Tables(), uploads[input.uploadId].noteId, userId).value.ownerUserId, input);
    }

    method WriteManifest(owner: Id, input: CommitInput) returns (outcome: CommitOutcome)
      requires input.uploadId in uploads
      modifies this
      ensures match Write(old(Tables()), owner, input, textHash)
        case NotWritten(refusal) => Tables() == old(Tables()) && outcome == CommitRefused(refusal)
        case Written(after, manifest) => Tables() == after && outcome == CommittedAs(input.requestId, manifest)
    {
      hide RowsRefusal, Contiguous;
      var upload := uploads[input.uploadId];
      var refusal := CheckRows(upload, ChunksOf(chunks, input.uploadId));
      if refusal.Some? {
        return CommitRefused(refusal.value);
      }
      refusal := SectionRefusal(Tables().log, upload);
      if refusal.Some? {
        return CommitRefused(refusal.value);
      }
      if KeyTaken(Tables(), upload, input) {
        return CommitRefused(Conflict);
      }
      if owner !in accounts || accounts[owner].reserved < upload.totalCipherBytes {
        return CommitRefused(StorageLimit);
      }
      var sequence := sections[upload.sectionId].currentSequence + 1;
      var manifest := NewManifest(upload, input.uploadId, sequence);
      manifests := manifests[input.requestId := manifest];
      InsertUpdate(ManifestRow(upload, input.uploadId, input.requestId, sequence));
      accounts := accounts[owner := Account(accounts[owner].used + upload.totalCipherBytes, accounts[owner].reserved - upload.totalCipherBytes)];
      uploads := uploads[input.uploadId := upload.(status := Committed)];
      return CommittedAs(input.requestId, manifest);
    }

    /** Insert the row, advance the section, and delete what a checkpoint covers. */
    method InsertUpdate(row: Row)
      requires row.sectionId in sections
      modifies this`sections, this`updates
      ensures Log(sections, updates) == Append(Log(old(sections), old(updates)), row)
    {
      updates := updates[row.updateId := row];
      sections := sections[row.sectionId := sections[row.sectionId].(currentSequence := row.serverSequence)];
      if row.kind.Checkpoint? && row.checkpointSequenceCutoff.Some? {
        // Sequences start at one, so a zero cutoff deletes nothing.
        updates := map id | id in updates
          && !(0 < row.checkpointSequenceCutoff.value
               && SameScope(updates[id], row)
               && updates[id].serverSequence <= row.checkpointSequenceCutoff.value
               && updates[id].updateId != row.updateId)
          :: updates[id];
      }
    }

    // ----- maintenance -----

    /**
     Expires up to `limit` overdue uploads, the longest overdue first; `hasMore` says exactly
     whether some remain. `rank` orders the identifiers, as the query does among equals.
     */
    method ExpireUploads(cutoff: nat, limit: nat, rank: Id -> int) returns (expired: seq<Id>, hasMore: bool)
      modifies this`accounts, this`chunks, this`uploads
      ensures Swept(old(Tables()), cutoff, rank, expired, Tables())
      ensures |expired| <= limit
      ensures hasMore <==> exists id :: Expirable(Tables(), id, cutoff)
      ensures hasMore ==> |expired| == limit
    {
      expired := [];
      ghost var before := Tables();
      while |expired| < limit && exists id :: id in uploads && Expirable(Tables(), id, cutoff)
        invariant |expired| <= limit
        invariant Swept(before, cutoff, rank, expired, Tables())
        invariant notes == old(notes) && members == old(members) && sections == old(sections) && updates == old(updates)
        invariant manifests == old(manifests) && attachments == old(attachments)
      {
        hide Expirable, Reserves, Before;
        var some :| some in uploads && Expirable(Tables(), some, cutoff);
        LongestOverdueExists(Tables(), cutoff, rank, (set id | id in uploads && Expirable(Tables(), id, cutoff)), some);
        var id :| id in uploads && LongestOverdue(Tables(), id, cutoff, rank);
        SweepOneMore(before, cutoff, rank, expired, Tables(), id);
        Close(notes[uploads[id].noteId].ownerUserId, id, Expired);
        expired := expired + [id];
      }
      hasMore := exists id :: id in uploads && Expirable(Tables(), id, cutoff);
      assert hasMore <==> exists id :: Expirable(Tables(), id, cutoff);
    }

    method ReconcileStorageAccount(userId: Id)
      modifies this`accounts
      ensures Tables() == Reconciled(old(Tables()), userId)
    {
      var content := Sum(ManifestWeights(notes, manifests, userId));
      var files := Sum(AttachmentWeights(notes, attachments, userId));
      var reserved := Sum(UploadWeights(notes, uploads, userId));
      accounts := accounts[userId := Account(content + files, reserved)];
    }
  }

  /** Comes no later in the order of the sweep. */
  predicate Before(db: Db, a: Id, b: Id, rank: Id -> int)
    requires a in db.uploads && b in db.uploads
  {
    db.uploads[a].expiresAt < db.uploads[b].expiresAt || (db.uploads[a].expiresAt == db.uploads[b].expiresAt && rank(a) <= rank(b))
  }

  predicate LongestOverdue(db: Db, id: Id, cutoff: nat, rank: Id -> int) {
    Expirable(db, id, cutoff) && forall other :: other in db.uploads && Expirable(db, other, cutoff) ==> Before(db, id, other, rank)
  }

  lemma LongestOverdueExists(db: Db, cutoff: nat, rank: Id -> int, ids: set<Id>, some: Id)
    requires ids == set id | id in db.uploads && Expirable(db, id, cutoff)
    requires some in ids
    ensures exists id :: id in db.uploads && LongestOverdue(db, id, cutoff, rank)
  {
    hide Expirable, Before;
    var first := FirstOf(db, rank, ids, some);
    forall other | other in db.uploads && Expirable(db, other, cutoff) ensures Before(db, first, other, rank) {
      assert other in ids;
    }
  }

  lemma {:induction false} FirstOf(db: Db, rank: Id -> int, ids: set<Id>, some: Id) returns (first: Id)
    requires some in ids && ids <= db.uploads.Keys
    ensures first in ids && forall other :: other in ids ==> Before(db, first, other, rank)
    decreases |ids|
  {
    if ids - {some} == {} {
      first := some;
      assert forall other :: other in ids ==> other == some || other in ids - {some};
    } else {
      var next :| next in ids - {some};
      var best := FirstOf(db, rank, ids - {some}, next);
      first := if Before(db, some, best, rank) then some else best;
      forall other | other in ids ensures Before(db, first, other, rank) {
        assert other == some || other in ids - {some};
      }
    }
  }

  /** The database after expiring these uploads one after the other, each the longest overdue when it was. */
  ghost predicate Swept(before: Db, cutoff: nat, rank: Id -> int, ids: seq<Id>, after: Db)
    decreases |ids|
  {
    if ids == [] then after == before
    else
      var id, earlier := ids[|ids| - 1], ids[..|ids| - 1];
      exists middle :: Swept(before, cutoff, rank, earlier, middle) && LongestOverdue(middle, id, cutoff, rank) && after == ExpireOne(middle, id)
  }

  lemma SweepOneMore(before: Db, cutoff: nat, rank: Id -> int, ids: seq<Id>, middle: Db, id: Id)
    requires Swept(before, cutoff, rank, ids, middle) && LongestOverdue(middle, id, cutoff, rank)
    ensures Swept(before, cutoff, rank, ids + [id], ExpireOne(middle, id))
  {
    assert (ids + [id])[..|ids|] == ids;
  }
}
