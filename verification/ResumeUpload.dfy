/**
 Resuming an interrupted content upload: from whatever an honest upload left behind on the
 server, one uninterrupted resume ends in exactly one manifest over exactly its chunks.
 */
module ResumeUpload {
  import opened Basics
  import opened Totals
  import opened SectionHistory
  import opened ManifestText
  import opened ContentStore
  import opened ContentRepositories
  import opened UploadLifecycle
  import ContentTerms
  import opened VerifiedContent
  import ContentCodec
  import Base64
  import Sorting

  type Chunk = ContentCodec.Chunk

  datatype TransferKey = TransferKey(userId: Id, uploadId: Id)

  /** A prepared upload as the browser keeps it; `ops` is what the sealed content means. */
  datatype TransferRecord = TransferRecord(
    userId: Id, requestId: Id, prepared: ContentCodec.Prepared, ops: set<Op>, uploaded: set<nat>)

  function KeyOf(record: TransferRecord): TransferKey { TransferKey(record.userId, record.prepared.identity.uploadId) }

  function NonceBytes(chunk: Chunk): Bytes {
    var nonce := Base64.FromCanonical(chunk.nonce);
    if nonce.Some? then nonce.value else []
  }

  /** The chunk row the server stores for the i-th prepared chunk. */
  function RowOf(record: TransferRecord, i: nat): StoredChunk
    requires i < |record.prepared.chunks|
  {
    var chunk := record.prepared.chunks[i];
    StoredChunk(i, |chunk.cipherBytes|, chunk.cipherHash, NonceBytes(chunk))
  }

  function AllRows(record: TransferRecord): seq<StoredChunk> {
    seq(|record.prepared.chunks|, i requires 0 <= i < |record.prepared.chunks| => RowOf(record, i))
  }

  /** What the chunk route asks of a request before it looks at the upload's rows. */
  predicate Sendable(chunk: Chunk, chunkCount: nat) {
    && 0 <= chunk.chunkIndex < chunkCount
    && 0 < |chunk.cipherBytes|
    && Base64.FromCanonical(chunk.nonce).Some?
    && |NonceBytes(chunk)| == ContentCodec.NONCE_BYTES
  }

  /** The chunks are complete, named by their index, and hashed as the server will hash them. */
  ghost predicate WellPrepared(record: TransferRecord, textHash: string -> string) {
    var p := record.prepared;
    && 0 < |p.chunks| == p.chunkCount
    && (forall i :: 0 <= i < |p.chunks| ==> p.chunks[i].chunkIndex == i && Sendable(p.chunks[i], p.chunkCount))
    && ContentCodec.CipherTotal(p.chunks) == p.totalCipherBytes
    && textHash(Lines(StoredDescriptors(AllRows(record)))) == p.manifestHash
  }

  function Payload(record: TransferRecord, expiresAt: nat): BeginInput {
    var p := record.prepared;
    var id := p.identity;
    BeginInput(id.uploadId, id.updateId, id.noteId, id.sectionId, id.keyEpoch, id.kind, 2, p.totalCipherBytes, p.chunkCount,
               p.manifestHash, id.checkpointSequenceCutoff, record.ops, expiresAt)
  }

  function Stored(record: TransferRecord): Id {
    StorageSectionId(record.prepared.identity.noteId, record.prepared.identity.sectionId)
  }

  // ----- the states an honest upload can be left in -----

  /** Access and epoch are as when the upload was prepared, and the section takes its kind. */
  ghost predicate Welcome(db: Db, userId: Id, record: TransferRecord) {
    var id := record.prepared.identity;
    var access := AccessOf(db, id.noteId, userId);
    var sections := EnsuredSections(db.log, id.noteId, id.sectionId, id.keyEpoch);
    && CanEdit(access) && !access.value.isDeleted && !access.value.rotationFenced && access.value.keyEpoch == id.keyEpoch
    && access.value.cryptoOwnerId == id.cryptoOwnerId
    && Usable(sections, Stored(record), id.noteId, id.keyEpoch)
    && (id.kind.Checkpoint? ==> id.checkpointSequenceCutoff.Some? && id.checkpointSequenceCutoff.value <= sections[Stored(record)].currentSequence)
  }

  /** Nothing of the upload is there, or an upload declared alike with some of its own chunks. */
  ghost predicate LeftBehind(db: Db, record: TransferRecord) {
    var id := record.prepared.identity.uploadId;
    && Inv(db)
    && (if id !in db.uploads then !Claimed(db.uploads, Payload(record, 0))
        else SameUpload(db.uploads[id], Payload(record, 0), Stored(record)) && OwnRows(ChunksOf(db.chunks, id), record)
             && SealedFor(db.uploads[id], record) && Stored(record) in db.log.sections)
  }

  /** Under the crypto owner its chunks were sealed for, and meaning what they mean. */
  predicate SealedFor(upload: Upload, record: TransferRecord) {
    upload.cryptoOwnerId == record.prepared.identity.cryptoOwnerId && upload.ops == record.ops
  }

  ghost predicate OwnRows(rows: ChunkRows, record: TransferRecord) {
    forall i :: i in rows ==> i < |record.prepared.chunks| && rows[i] == RowOf(record, i)
  }

  predicate StatusIs(db: Db, id: Id, status: UploadStatus) { id in db.uploads && db.uploads[id].status == status }

  /** There is room for the bytes if they must be reserved, and they are reserved if they should be. */
  ghost predicate Room(db: Db, owner: Id, record: TransferRecord, quota: nat) {
    var id := record.prepared.identity.uploadId;
    if id in db.uploads && Reserves(db.uploads[id].status) then CanPay(db.accounts, owner, record.prepared.totalCipherBytes)
    else StatusIs(db, id, Committed) || Fits(EnsuredAccount(db.accounts, owner)[owner], record.prepared.totalCipherBytes, quota)
  }

  /** The keys of its manifest and update rows are free until it is committed. */
  ghost predicate KeysFree(db: Db, record: TransferRecord) {
    var id := record.prepared.identity;
    && record.requestId !in db.manifests
    && (forall m :: m in db.manifests ==> db.manifests[m].updateId != id.updateId)
    && id.updateId !in db.log.updates
  }

  ghost predicate Resumable(db: Db, userId: Id, record: TransferRecord, quota: nat) {
    && Welcome(db, userId, record)
    && LeftBehind(db, record)
    && Room(db, db.notes[record.prepared.identity.noteId].ownerUserId, record, quota)
    && (!StatusIs(db, record.prepared.identity.uploadId, Committed) ==> KeysFree(db, record))
  }

  /** The one state a resume does not get past: overdue, but not yet swept. */
  predicate Overdue(db: Db, record: TransferRecord, now: nat) {
    var id := record.prepared.identity.uploadId;
    id in db.uploads && Reserves(db.uploads[id].status) && db.uploads[id].expiresAt <= now
  }

  /** The manifest says of the content, field by field, what was prepared. */
  predicate ManifestIsPrepared(m: Manifest, record: TransferRecord) {
    var p := record.prepared;
    && m.uploadId == p.identity.uploadId && m.updateId == p.identity.updateId && m.noteId == p.identity.noteId
    && m.sectionId == (match p.identity.sectionId { case Root => p.identity.noteId case Named(id) => id })
    && m.keyEpoch == p.identity.keyEpoch && m.kind == p.identity.kind
    && m.checkpointSequenceCutoff == p.identity.checkpointSequenceCutoff
    && m.totalCipherBytes == p.totalCipherBytes && m.chunkCount == p.chunkCount && m.manifestHash == p.manifestHash
  }

  /** The log row of a transfer: what was prepared, under the manifest and its sequence, and no inline content. */
  predicate RowIsPrepared(row: Row, record: TransferRecord, manifestId: Id, sequence: nat) {
    var p := record.prepared;
    && row.updateId == p.identity.updateId && row.noteId == p.identity.noteId
    && row.sectionId == (match p.identity.sectionId { case Root => p.identity.noteId case Named(id) => id })
    && row.serverSequence == sequence && row.cryptoOwnerId == p.identity.cryptoOwnerId && row.keyEpoch == p.identity.keyEpoch
    && row.kind == p.identity.kind && row.checkpointSequenceCutoff == p.identity.checkpointSequenceCutoff
    && row.inlineCipher == None && row.nonce == None
    && row.manifestId == Some(manifestId) && row.uploadId == Some(p.identity.uploadId)
    && row.totalCipherBytes == Some(p.totalCipherBytes) && row.chunkCount == Some(p.chunkCount)
    && row.manifestHash == Some(p.manifestHash) && row.ops == record.ops
  }

  /** Committed once, over exactly the prepared chunks. */
  ghost predicate Finished(db: Db, record: TransferRecord, manifestId: Id, manifest: Manifest) {
    var id := record.prepared.identity.uploadId;
    && id in db.uploads && db.uploads[id].status.Committed?
    && ChunksOf(db.chunks, id).Keys == UpTo(|record.prepared.chunks|)
    && OwnRows(ChunksOf(db.chunks, id), record)
    && manifestId in db.manifests && db.manifests[manifestId] == manifest && manifest.uploadId == id
    && ManifestIsPrepared(manifest, record)
    && (forall other :: IsManifestOf(db.manifests, other, id) ==> other == manifestId)
  }

  // ----- prepared rows add up -----

  /** The lengths of the first n prepared rows. */
  function Lengths(record: TransferRecord, n: nat): map<nat, nat>
    requires n <= |record.prepared.chunks|
  {
    map i | 0 <= i < n :: |record.prepared.chunks[i].cipherBytes|
  }

  lemma {:induction false} LengthsTotal(record: TransferRecord, n: nat)
    requires n <= |record.prepared.chunks|
    ensures Total(Lengths(record, n)) == ContentCodec.CipherTotal(record.prepared.chunks[..n])
  {
    if n == 0 {
      assert Lengths(record, 0) == map[];
    } else {
      var last: nat := n - 1;
      var prefix, longer := record.prepared.chunks[..n], Lengths(record, n);
      LengthsTotal(record, last);
      assert prefix[..last] == record.prepared.chunks[..last];
      TotalRemove<nat>(longer, last);
      assert longer - {last} == Lengths(record, last);
    }
  }

  /** Own rows never exceed the declared total, and reach it exactly when all are there. */
  lemma OwnRowsTotal(rows: ChunkRows, record: TransferRecord)
    requires OwnRows(rows, record)
    requires ContentCodec.CipherTotal(record.prepared.chunks) == record.prepared.totalCipherBytes
    ensures ReceivedBytes(rows) <= record.prepared.totalCipherBytes
    ensures rows.Keys == UpTo(|record.prepared.chunks|) ==> ReceivedBytes(rows) == record.prepared.totalCipherBytes
  {
    hide Total, ContentCodec.CipherTotal, NonceBytes;
    var n := |record.prepared.chunks|;
    LengthsTotal(record, n);
    assert record.prepared.chunks[..n] == record.prepared.chunks;
    OwnLengths(rows, record);
    TotalMonotone(RowLengths(rows), Lengths(record, n));
  }

  lemma OwnLengths(rows: ChunkRows, record: TransferRecord)
    requires OwnRows(rows, record)
    ensures var lengths := RowLengths(rows);
      var all := Lengths(record, |record.prepared.chunks|);
      && (forall i :: i in lengths ==> i in all && lengths[i] == all[i])
      && (rows.Keys == UpTo(|record.prepared.chunks|) ==> lengths == all)
  {
  }

  /** What an honest upload's status says: it is never invalid, and with all its rows it is complete or committed. */
  lemma HonestStatus(db: Db, record: TransferRecord, textHash: string -> string)
    requires LeftBehind(db, record) && WellPrepared(record, textHash) && record.prepared.identity.uploadId in db.uploads
    ensures var id := record.prepared.identity.uploadId;
      var status := db.uploads[id].status;
      && !status.Invalid?
      && (ChunksOf(db.chunks, id).Keys == UpTo(|record.prepared.chunks|) ==> status.Complete? || status.Committed?)
      && (status.Complete? || status.Committed? ==> ChunksOf(db.chunks, id).Keys == UpTo(|record.prepared.chunks|))
  {
    hide Inv, ReceivedBytes, RowsOk, OwnRows, WellPrepared, UpTo;
    var id := record.prepared.identity.uploadId;
    UploadIsOk(db, id);
    PreparedTotals(record, textHash);
    OwnRowsTotal(ChunksOf(db.chunks, id), record);
    NonEmptyPrepared(record, textHash);
  }

  lemma NonEmptyPrepared(record: TransferRecord, textHash: string -> string)
    requires WellPrepared(record, textHash)
    ensures 0 in UpTo(|record.prepared.chunks|) && 0 < record.prepared.totalCipherBytes
  {
    var chunks := record.prepared.chunks;
    assert |chunks[|chunks| - 1].cipherBytes| > 0;
  }

  // ----- begin -----

  function WithSections(db: Db, record: TransferRecord): Db {
    var id := record.prepared.identity;
    db.(log := db.log.(sections := EnsuredSections(db.log, id.noteId, id.sectionId, id.keyEpoch)))
  }

  /** Ensuring the section is all a begin does before it looks at the upload. */
  lemma SectionsEnsured(db: Db, userId: Id, record: TransferRecord, quota: nat)
    requires Resumable(db, userId, record, quota)
    ensures Resumable(WithSections(db, record), userId, record, quota)
    ensures var access := AccessOf(db, record.prepared.identity.noteId, userId);
      && access.Some? && access.value.ownerUserId == db.notes[record.prepared.identity.noteId].ownerUserId
      && access.value.cryptoOwnerId == record.prepared.identity.cryptoOwnerId
      && (forall expiresAt :: Begun(db, true, userId, Payload(record, expiresAt), quota)
            == BegunInSection(WithSections(db, record), access.value, Stored(record), Payload(record, expiresAt), quota))
  {
    hide Inv, OwnRows, SameUpload, Claimed, Room, KeysFree, BegunInSection;
    assert EnsuredSections(WithSections(db, record).log, record.prepared.identity.noteId, record.prepared.identity.sectionId, record.prepared.identity.keyEpoch)
        == WithSections(db, record).log.sections;
    SameTablesLeft(db, WithSections(db, record), record);
    SameRoom(db, WithSections(db, record), db.notes[record.prepared.identity.noteId].ownerUserId, record, quota);
  }

  lemma SameTablesLeft(db: Db, next: Db, record: TransferRecord)
    requires LeftBehind(db, record)
    requires next.uploads == db.uploads && next.chunks == db.chunks && next.manifests == db.manifests && next.log.updates == db.log.updates
    requires db.log.sections.Keys <= next.log.sections.Keys
    ensures LeftBehind(next, record)
    ensures KeysFree(db, record) ==> KeysFree(next, record)
  {
    hide OwnRows, SameUpload, UploadsOk, ManifestsOk;
  }

  lemma SameRoom(db: Db, next: Db, owner: Id, record: TransferRecord, quota: nat)
    requires Room(db, owner, record, quota) && next.uploads == db.uploads && next.accounts == db.accounts
    ensures Room(next, owner, record, quota)
  {
  }

  /** What the upload looks like once begin has answered. */
  ghost predicate Begins(before: Db, after: Db, record: TransferRecord, expiresAt: nat) {
    var id := record.prepared.identity.uploadId;
    && id in after.uploads
    && (after.uploads[id].status.Receiving? || after.uploads[id].status.Complete? || after.uploads[id].status.Committed?)
    && (id in before.uploads && !Revivable(before.uploads[id].status) ==>
          after.uploads == before.uploads && after.chunks == before.chunks && after.manifests == before.manifests
          && after.accounts == before.accounts && after.log.updates == before.log.updates)
    && (id !in before.uploads || Revivable(before.uploads[id].status) ==>
          after.uploads[id].status.Receiving? && after.uploads[id].expiresAt == expiresAt)
  }

  lemma BeginExisting(db: Db, access: Access, record: TransferRecord, quota: nat, expiresAt: nat,
      textHash: string -> string)
    requires LeftBehind(db, record) && WellPrepared(record, textHash)
    requires var id := record.prepared.identity.uploadId; id in db.uploads && !Revivable(db.uploads[id].status)
    ensures BegunInSection(db, access, Stored(record), Payload(record, expiresAt), quota)
      == (db, Existing(ViewOf(db, record.prepared.identity.uploadId)))
    ensures Begins(db, db, record, expiresAt)
  {
    hide Inv, OwnRows, WellPrepared, Opened, UpTo;
    HonestStatus(db, record, textHash);
  }

  lemma BeginOpens(db: Db, access: Access, record: TransferRecord, quota: nat, expiresAt: nat,
      textHash: string -> string)
    requires LeftBehind(db, record) && WellPrepared(record, textHash) && Room(db, access.ownerUserId, record, quota)
    requires var id := record.prepared.identity.uploadId; id !in db.uploads || Revivable(db.uploads[id].status)
    ensures var (next, outcome) := BegunInSection(db, access, Stored(record), Payload(record, expiresAt), quota);
      var id := record.prepared.identity.uploadId;
      && !outcome.BeginRefused?
      && next == db.(accounts := next.accounts, chunks := db.chunks - {id}, uploads := next.uploads)
      && id in next.uploads && next.uploads == db.uploads[id := next.uploads[id]]
      && next.uploads[id].status.Receiving? && next.uploads[id].expiresAt == expiresAt
      && SameUpload(next.uploads[id], Payload(record, 0), Stored(record))
      && (access.cryptoOwnerId == record.prepared.identity.cryptoOwnerId ==> SealedFor(next.uploads[id], record))
      && CanPay(next.accounts, access.ownerUserId, record.prepared.totalCipherBytes)
  {
    hide Inv, OwnRows, WellPrepared;
  }

  lemma BeginReady(db: Db, userId: Id, record: TransferRecord, quota: nat, expiresAt: nat, textHash: string -> string)
    requires Resumable(db, userId, record, quota) && WellPrepared(record, textHash)
    ensures var (next, outcome) := Begun(db, true, userId, Payload(record, expiresAt), quota);
      && !outcome.BeginRefused?
      && Resumable(next, userId, record, quota)
      && Begins(db, next, record, expiresAt)
  {
    hide Begun, BegunInSection, WellPrepared, Welcome, LeftBehind, Room, KeysFree, Begins, EnsuredSections;
    SectionsEnsured(db, userId, record, quota);
    BeginSecond(db, userId, record, quota, expiresAt, textHash);
  }

  lemma BeginSecond(db: Db, userId: Id, record: TransferRecord, quota: nat, expiresAt: nat, textHash: string -> string)
    requires Resumable(WithSections(db, record), userId, record, quota) && WellPrepared(record, textHash)
    requires var access := AccessOf(db, record.prepared.identity.noteId, userId);
      && access.Some? && access.value.ownerUserId == db.notes[record.prepared.identity.noteId].ownerUserId
      && access.value.cryptoOwnerId == record.prepared.identity.cryptoOwnerId
    ensures var access := AccessOf(db, record.prepared.identity.noteId, userId).value;
      var (next, outcome) := BegunInSection(WithSections(db, record), access, Stored(record), Payload(record, expiresAt), quota);
      && !outcome.BeginRefused?
      && Resumable(next, userId, record, quota)
      && Begins(db, next, record, expiresAt)
  {
    hide BegunInSection, WellPrepared, Welcome, Inv, OwnRows, SameUpload, Claimed, EnsuredSections, AccessOf;
    var base := WithSections(db, record);
    var id := record.prepared.identity.uploadId;
    var access := AccessOf(db, record.prepared.identity.noteId, userId).value;
    if id in db.uploads && !Revivable(db.uploads[id].status) {
      BeginExisting(base, access, record, quota, expiresAt, textHash);
    } else {
      BeginOpens(base, access, record, quota, expiresAt, textHash);
      SectionIsThere(base, userId, record, db);
      OpenedIsLeftBehind(base, access, record, quota, expiresAt, textHash);
      var next := BegunInSection(base, access, Stored(record), Payload(record, expiresAt), quota).0;
      SameWelcome(base, next, userId, record);
    }
  }

  lemma OpenedIsLeftBehind(db: Db, access: Access, record: TransferRecord, quota: nat, expiresAt: nat,
      textHash: string -> string)
    requires LeftBehind(db, record) && WellPrepared(record, textHash) && Room(db, access.ownerUserId, record, quota)
    requires Stored(record) in db.log.sections && access.cryptoOwnerId == record.prepared.identity.cryptoOwnerId
    requires var id := record.prepared.identity.uploadId; id !in db.uploads || Revivable(db.uploads[id].status)
    ensures LeftBehind(BegunInSection(db, access, Stored(record), Payload(record, expiresAt), quota).0, record)
  {
    hide Inv, UploadOk, SameUpload, BegunInSection, WellPrepared, Room;
    var id := record.prepared.identity.uploadId;
    var next := BegunInSection(db, access, Stored(record), Payload(record, expiresAt), quota).0;
    BeginOpens(db, access, record, quota, expiresAt, textHash);
    NonEmptyPrepared(record, textHash);
    NoManifestYet(db, id);
    assert SameUpload(next.uploads[id], Payload(record, 0), Stored(record));
    EmptyIsOk(next.uploads[id], record);
    OneUpload(db, next, id);
  }

  lemma SectionIsThere(base: Db, userId: Id, record: TransferRecord, db: Db)
    requires Welcome(base, userId, record) && base == WithSections(db, record)
    ensures Stored(record) in base.log.sections
  {
  }

  lemma EmptyIsOk(upload: Upload, record: TransferRecord)
    requires SameUpload(upload, Payload(record, 0), Stored(record)) && upload.status.Receiving? && 0 < record.prepared.totalCipherBytes
    ensures UploadOk(upload, map[])
  {
    NoRowsNoBytes();
  }

  lemma SameWelcome(db: Db, next: Db, userId: Id, record: TransferRecord)
    requires Welcome(db, userId, record) && next.notes == db.notes && next.members == db.members && next.log == db.log
    ensures Welcome(next, userId, record)
  {
  }

  // ----- inspect, put, commit -----

  lemma StatusReady(db: Db, userId: Id, record: TransferRecord, quota: nat, now: nat)
    requires Resumable(db, userId, record, quota) && record.prepared.identity.uploadId in db.uploads
    ensures var id := record.prepared.identity.uploadId;
      var (next, view) := StatusRead(db, id, userId, now);
      && view.Some?
      && (Overdue(db, record, now) ==> view.value.upload.status.Expired?)
      && (!Overdue(db, record, now) ==> next == db && view.value == ViewOf(db, id))
  {
    hide Inv, OwnRows, KeysFree, Room;
  }

  /** The note owner's counters are within the quota, as they always are. */
  predicate QuotaKept(db: Db, record: TransferRecord, quota: nat) {
    var noteId := record.prepared.identity.noteId;
    noteId in db.notes && db.notes[noteId].ownerUserId in db.accounts ==>
      var account := db.accounts[db.notes[noteId].ownerUserId];
      account.used + account.reserved <= quota
  }

  /** Giving up an upload that holds bytes, for whatever reason, leaves room to resume it afresh. */
  lemma ClosedIsResumable(db: Db, userId: Id, record: TransferRecord, quota: nat, status: UploadStatus)
    requires Resumable(db, userId, record, quota) && QuotaKept(db, record, quota) && Revivable(status)
    requires var id := record.prepared.identity.uploadId; id in db.uploads && Reserves(db.uploads[id].status)
    ensures var next := Closed(db, db.notes[record.prepared.identity.noteId].ownerUserId, record.prepared.identity.uploadId, status);
      && Resumable(next, userId, record, quota) && QuotaKept(next, record, quota)
      && !Reserves(next.uploads[record.prepared.identity.uploadId].status)
  {
    hide Inv, EnsuredSections, Usable, ReceivedBytes;
    var id := record.prepared.identity.uploadId;
    var owner := db.notes[record.prepared.identity.noteId].ownerUserId;
    var next := Closed(db, owner, id, status);
    ClosedKeeps(db, owner, id, status);
    SameWelcome(db, next, userId, record);
  }

  /** Inspecting an overdue upload sweeps it, and what is left can be resumed afresh. */
  lemma SweptIsResumable(db: Db, userId: Id, record: TransferRecord, quota: nat, now: nat)
    requires Resumable(db, userId, record, quota) && Overdue(db, record, now) && QuotaKept(db, record, quota)
    ensures var next := StatusRead(db, record.prepared.identity.uploadId, userId, now).0;
      Resumable(next, userId, record, quota) && !Overdue(next, record, now) && QuotaKept(next, record, quota)
  {
    hide Closed, Inv, EnsuredSections, Usable, QuotaKept, OwnRows, Room, KeysFree;
    ClosedIsResumable(db, userId, record, quota, Expired);
    var access := AccessOf(db, record.prepared.identity.noteId, userId);
    assert StatusRead(db, record.prepared.identity.uploadId, userId, now).0
        == Closed(db, access.value.ownerUserId, record.prepared.identity.uploadId, Expired);
  }

  lemma PutReady(db: Db, userId: Id, record: TransferRecord, quota: nat, i: nat, textHash: string -> string)
    requires Resumable(db, userId, record, quota) && WellPrepared(record, textHash)
    requires var id := record.prepared.identity.uploadId;
      id in db.uploads && i < |record.prepared.chunks| && i !in ChunksOf(db.chunks, id) && !Revivable(db.uploads[id].status)
    ensures var id := record.prepared.identity.uploadId;
      Registered(db, true, userId, id, RowOf(record, i)) == (Extended(db, id, RowOf(record, i)), ChunkOutcome.Stored)
    ensures Resumable(Extended(db, record.prepared.identity.uploadId, RowOf(record, i)), userId, record, quota)
  {
    hide Inv, WellPrepared, KeysFree, Room, UpTo, ReceivedBytes, EnsuredSections, StatusAfter;
    var id := record.prepared.identity.uploadId;
    var rows := ChunksOf(db.chunks, id);
    InRange(record, i);
    HonestStatus(db, record, textHash);
    var longer := rows[i := RowOf(record, i)];
    assert OwnRows(longer, record);
    PreparedTotals(record, textHash);
    OwnRowsTotal(longer, record);
    assert Registered(db, true, userId, id, RowOf(record, i)).0 == Extended(db, id, RowOf(record, i));
    ChunkKeeps(db, true, userId, id, RowOf(record, i));
    ExtendedStays(db, userId, record, quota, i);
  }

  lemma InRange(record: TransferRecord, i: nat)
    requires i < |record.prepared.chunks|
    ensures i in UpTo(|record.prepared.chunks|)
  {
  }

  lemma PreparedTotals(record: TransferRecord, textHash: string -> string)
    requires WellPrepared(record, textHash)
    ensures ContentCodec.CipherTotal(record.prepared.chunks) == record.prepared.totalCipherBytes
    ensures |record.prepared.chunks| == record.prepared.chunkCount
    ensures forall i :: 0 <= i < |record.prepared.chunks| ==>
      record.prepared.chunks[i].chunkIndex == i && Sendable(record.prepared.chunks[i], record.prepared.chunkCount)
    ensures textHash(Lines(StoredDescriptors(AllRows(record)))) == record.prepared.manifestHash
  {
  }

  lemma ExtendedStays(db: Db, userId: Id, record: TransferRecord, quota: nat, i: nat)
    requires Resumable(db, userId, record, quota) && i < |record.prepared.chunks|
    requires var id := record.prepared.identity.uploadId;
      id in db.uploads && db.uploads[id].status.Receiving? && Inv(Extended(db, id, RowOf(record, i)))
    ensures Resumable(Extended(db, record.prepared.identity.uploadId, RowOf(record, i)), userId, record, quota)
  {
    hide Inv, EnsuredSections, ReceivedBytes, AccessOf, Usable;
    var next := Extended(db, record.prepared.identity.uploadId, RowOf(record, i));
    SameWelcome(db, next, userId, record);
  }

  lemma CommitReady(db: Db, userId: Id, record: TransferRecord, quota: nat, textHash: string -> string, next: Db,
      outcome: CommitOutcome)
    requires Resumable(db, userId, record, quota) && WellPrepared(record, textHash)
    requires var id := record.prepared.identity.uploadId;
      id in db.uploads && ChunksOf(db.chunks, id).Keys == UpTo(|record.prepared.chunks|)
    requires CommitResult(db, true, userId, CommitOf(record), textHash, next, outcome)
    ensures outcome.CommittedAs? && Finished(next, record, outcome.manifestId, outcome.manifest)
    ensures StatusIs(db, record.prepared.identity.uploadId, Committed) ==> next == db
    ensures !StatusIs(db, record.prepared.identity.uploadId, Committed) ==> RowWritten(next, record, outcome)
  {
    hide Inv, WellPrepared, Write, UpTo, OwnRows, RowWritten;
    var id := record.prepared.identity.uploadId;
    HonestStatus(db, record, textHash);
    GatePasses(db, userId, record, quota);
    if HasManifest(db.manifests, id) {
      ManifestFinishes(db, record, outcome.manifestId);
      CommittedIff(db, id);
    } else {
      CommittedIff(db, id);
      var owner := AccessOf(db, db.uploads[id].noteId, userId).value.ownerUserId;
      WriteSucceeds(db, owner, userId, record, quota, textHash);
      WriteShape(db, owner, CommitOf(record), textHash);
      WriteKeeps(db, owner, CommitOf(record), textHash);
      ManifestFinishes(next, record, outcome.manifestId);
      RowIsWritten(db, owner, record, textHash);
    }
  }

  /** The log holds the transfer's row under the manifest the commit answered. */
  predicate RowWritten(db: Db, record: TransferRecord, outcome: CommitOutcome) {
    && outcome.CommittedAs? && record.prepared.identity.updateId in db.log.updates
    && RowIsPrepared(db.log.updates[record.prepared.identity.updateId], record, outcome.manifestId, outcome.manifest.firstSequence)
  }

  lemma RowIsWritten(db: Db, owner: Id, record: TransferRecord, textHash: string -> string)
    requires var id := record.prepared.identity.uploadId;
      && id in db.uploads && SameUpload(db.uploads[id], Payload(record, 0), Stored(record)) && SealedFor(db.uploads[id], record)
    requires Write(db, owner, CommitOf(record), textHash).Written?
    ensures var written := Write(db, owner, CommitOf(record), textHash);
      RowWritten(written.db, record, CommittedAs(record.requestId, written.manifest))
  {
    hide Write, ContentTerms.TakenAlong;
    ContentTerms.WriteLeaves(db, owner, CommitOf(record), textHash);
  }

  function CommitOf(record: TransferRecord): CommitInput {
    CommitInput(record.requestId, record.prepared.identity.uploadId, record.prepared.identity.updateId, record.prepared.identity.keyEpoch)
  }

  lemma CommittedIff(db: Db, id: Id)
    requires Inv(db) && id in db.uploads
    ensures db.uploads[id].status.Committed? <==> HasManifest(db.manifests, id)
  {
  }

  lemma GatePasses(db: Db, userId: Id, record: TransferRecord, quota: nat)
    requires Resumable(db, userId, record, quota) && record.prepared.identity.uploadId in db.uploads
    ensures CommitGate(db, true, userId, CommitOf(record)).None?
  {
    hide Inv, OwnRows, KeysFree, Room, EnsuredSections, Usable;
  }

  lemma ManifestFinishes(db: Db, record: TransferRecord, manifestId: Id)
    requires Inv(db) && record.prepared.identity.uploadId in db.uploads
    requires var id := record.prepared.identity.uploadId;
      && SameUpload(db.uploads[id], Payload(record, 0), Stored(record))
      && OwnRows(ChunksOf(db.chunks, id), record) && ChunksOf(db.chunks, id).Keys == UpTo(|record.prepared.chunks|)
    requires IsManifestOf(db.manifests, manifestId, record.prepared.identity.uploadId)
    ensures Finished(db, record, manifestId, db.manifests[manifestId])
  {
    hide UploadsOk, UpTo, OwnRows;
  }

  lemma WriteSucceeds(db: Db, owner: Id, userId: Id, record: TransferRecord, quota: nat, textHash: string -> string)
    requires Resumable(db, userId, record, quota) && WellPrepared(record, textHash)
    requires owner == db.notes[record.prepared.identity.noteId].ownerUserId
    requires var id := record.prepared.identity.uploadId;
      && id in db.uploads && db.uploads[id].status.Complete?
      && ChunksOf(db.chunks, id).Keys == UpTo(|record.prepared.chunks|)
    ensures Write(db, owner, CommitOf(record), textHash).Written?
  {
    hide Inv, Write, UpTo, Lines, Welcome, OwnRows, WellPrepared, Contiguous, KeyTaken, CanPay, StoredDescriptors, AllRows, OrderedRows;
    var id := record.prepared.identity.uploadId;
    CompleteUploadCommits(db, owner, CommitOf(record), textHash);
    SectionTakes(db, userId, record);
    PreparedTotals(record, textHash);
    OwnRowsInOrder(ChunksOf(db.chunks, id), record);
    KeysAreFree(db, record);
  }

  lemma KeysAreFree(db: Db, record: TransferRecord)
    requires KeysFree(db, record) && record.prepared.identity.uploadId in db.uploads
    requires SameUpload(db.uploads[record.prepared.identity.uploadId], Payload(record, 0), Stored(record))
    ensures !KeyTaken(db, db.uploads[record.prepared.identity.uploadId], CommitOf(record))
  {
  }

  lemma SectionTakes(db: Db, userId: Id, record: TransferRecord)
    requires Welcome(db, userId, record) && record.prepared.identity.uploadId in db.uploads
    requires SameUpload(db.uploads[record.prepared.identity.uploadId], Payload(record, 0), Stored(record))
    requires Stored(record) in db.log.sections
    ensures SectionRefusal(db.log, db.uploads[record.prepared.identity.uploadId]).None?
  {
  }

  lemma OwnRowsInOrder(rows: ChunkRows, record: TransferRecord)
    requires OwnRows(rows, record) && Contiguous(rows, |record.prepared.chunks|)
    ensures OrderedRows(rows, |record.prepared.chunks|) == AllRows(record)
  {
  }

  /** A finished upload may be resumed again: it stays committed and nothing else is needed. */
  lemma FinishedIsResumable(before: Db, next: Db, userId: Id, record: TransferRecord, quota: nat,
      outcome: CommitOutcome, textHash: string -> string)
    requires Resumable(before, userId, record, quota) && WellPrepared(record, textHash)
    requires var id := record.prepared.identity.uploadId;
      id in before.uploads && ChunksOf(before.chunks, id).Keys == UpTo(|record.prepared.chunks|)
    requires CommitResult(before, true, userId, CommitOf(record), textHash, next, outcome)
    ensures Resumable(next, userId, record, quota) && StatusIs(next, record.prepared.identity.uploadId, Committed)
  {
    hide Inv, WellPrepared, Write, UpTo, OwnRows, EnsuredSections, KeysFree;
    var id := record.prepared.identity.uploadId;
    CommitReady(before, userId, record, quota, textHash, next, outcome);
    if !StatusIs(before, id, Committed) {
      GatePasses(before, userId, record, quota);
      CommittedIff(before, id);
      var owner := AccessOf(before, before.uploads[id].noteId, userId).value.ownerUserId;
      WriteShape(before, owner, CommitOf(record), textHash);
      WriteKeeps(before, owner, CommitOf(record), textHash);
      WriteKeepsWelcome(before, owner, userId, record, textHash);
    }
  }

  lemma WriteKeepsWelcome(db: Db, owner: Id, userId: Id, record: TransferRecord, textHash: string -> string)
    requires Welcome(db, userId, record) && record.prepared.identity.uploadId in db.uploads
    requires SameUpload(db.uploads[record.prepared.identity.uploadId], Payload(record, 0), Stored(record))
    requires Stored(record) in db.log.sections
    requires Write(db, owner, CommitOf(record), textHash).Written?
    ensures Welcome(Write(db, owner, CommitOf(record), textHash).db, userId, record)
    ensures Stored(record) in Write(db, owner, CommitOf(record), textHash).db.log.sections
  {
    hide RowsRefusal, KeyTaken, NewManifest, OrderedRows, Compacted;
  }

  // ----- the client -----

  class TransferStore {
    var transfers: map<TransferKey, TransferRecord>

    constructor ()
      ensures transfers == map[]
    {
      transfers := map[];
    }

    /** A retained record wins over a fresh preparation of the same upload; a different one is refused. */
    method PersistPreparedTransfer(record: TransferRecord) returns (result: Result<TransferRecord>)
      modifies this
      ensures KeyOf(record) !in old(transfers) ==>
        result == Ok(record.(uploaded := {})) && transfers == old(transfers)[KeyOf(record) := record.(uploaded := {})]
      ensures KeyOf(record) in old(transfers) ==>
        && transfers == old(transfers)
        && (result.Ok? <==>
              && old(transfers)[KeyOf(record)].prepared.identity.updateId == record.prepared.identity.updateId
              && old(transfers)[KeyOf(record)].prepared.manifestHash == record.prepared.manifestHash
              && old(transfers)[KeyOf(record)].requestId == record.requestId)
        && (result.Ok? ==> result.value == old(transfers)[KeyOf(record)])
    {
      if KeyOf(record) in transfers {
        var existing := transfers[KeyOf(record)];
        if existing.prepared.identity.updateId != record.prepared.identity.updateId
           || existing.prepared.manifestHash != record.prepared.manifestHash || existing.requestId != record.requestId {
          return Err("Encrypted content upload identity conflict");
        }
        return Ok(existing);
      }
      transfers := transfers[KeyOf(record) := record.(uploaded := {})];
      return Ok(record.(uploaded := {}));
    }

    method SaveProgress(record: TransferRecord, received: set<nat>)
      modifies this
      ensures transfers == old(transfers)[KeyOf(record) := record.(uploaded := received)]
    {
      transfers := transfers[KeyOf(record) := record.(uploaded := received)];
    }
  }

  /** The chunk request: the route's checks, then the transaction. */
  method PutContentChunk(server: PostgresContent, userId: Id, uploadId: Id, chunk: Chunk) returns (ok: bool)
    modifies server`chunks, server`uploads
    ensures uploadId !in old(server.uploads) || !Sendable(chunk, old(server.uploads)[uploadId].chunkCount) ==>
      !ok && server.Tables() == old(server.Tables())
    ensures uploadId in old(server.uploads) && Sendable(chunk, old(server.uploads)[uploadId].chunkCount) ==>
      var (next, outcome) := Registered(old(server.Tables()), true, userId, uploadId,
                                        StoredChunk(chunk.chunkIndex, |chunk.cipherBytes|, chunk.cipherHash, NonceBytes(chunk)));
      server.Tables() == next && (ok <==> outcome == ChunkOutcome.Stored || outcome == Raced)
  {
    if uploadId !in server.uploads || !Sendable(chunk, server.uploads[uploadId].chunkCount) {
      return false;
    }
    var outcome := server.RegisterChunk(true, userId, uploadId,
                                        StoredChunk(chunk.chunkIndex, |chunk.cipherBytes|, chunk.cipherHash, NonceBytes(chunk)));
    ok := outcome == ChunkOutcome.Stored || outcome == Raced;
  }

  ghost predicate SameContent(before: Db, after: Db) {
    && after.uploads == before.uploads && after.chunks == before.chunks && after.manifests == before.manifests
    && after.accounts == before.accounts && after.log.updates == before.log.updates
  }

  predicate Live(db: Db, id: Id) {
    id in db.uploads && (db.uploads[id].status.Receiving? || db.uploads[id].status.Complete? || db.uploads[id].status.Committed?)
  }

  /** Between begin and commit: nothing has gone wrong, and a committed upload was not touched. */
  ghost predicate Going(start: Db, db: Db, record: TransferRecord, quota: nat, textHash: string -> string) {
    && WellPrepared(record, textHash)
    && Resumable(db, record.userId, record, quota)
    && Live(db, record.prepared.identity.uploadId)
    && (StatusIs(start, record.prepared.identity.uploadId, Committed) ==> SameContent(start, db))
    && (StatusIs(db, record.prepared.identity.uploadId, Committed) ==> StatusIs(start, record.prepared.identity.uploadId, Committed))
  }

  /** What a resume relies on; it fails cleanly otherwise. */
  ghost predicate Ready(db: Db, record: TransferRecord, quota: nat, textHash: string -> string) {
    WellPrepared(record, textHash) && Resumable(db, record.userId, record, quota)
  }

  function Received(db: Db, record: TransferRecord): set<nat> {
    ChunksOf(db.chunks, record.prepared.identity.uploadId).Keys
  }

  lemma BeginIsGoing(start: Db, record: TransferRecord, quota: nat, expiresAt: nat, now: nat,
      textHash: string -> string)
    requires Ready(start, record, quota, textHash) && now < expiresAt
    ensures var (next, outcome) := Begun(start, true, record.userId, Payload(record, expiresAt), quota);
      && !outcome.BeginRefused?
      && Going(start, next, record, quota, textHash)
      && (Overdue(next, record, now) <==> Overdue(start, record, now))
  {
    hide Begun, WellPrepared, Resumable;
    BeginReady(start, record.userId, record, quota, expiresAt, textHash);
  }

  lemma PutKeepsGoing(start: Db, db: Db, record: TransferRecord, quota: nat, textHash: string -> string, i: nat)
    requires Going(start, db, record, quota, textHash) && i < |record.prepared.chunks| && i !in Received(db, record)
    ensures var id := record.prepared.identity.uploadId;
      var (next, outcome) := Registered(db, true, record.userId, id, RowOf(record, i));
      && outcome == ChunkOutcome.Stored
      && Going(start, next, record, quota, textHash)
      && Received(next, record) == Received(db, record) + {i}
  {
    hide Registered, WellPrepared, Welcome, Room, KeysFree, Inv, OwnRows, UpTo, StatusAfter, SameContent;
    var id := record.prepared.identity.uploadId;
    PutReady(db, record.userId, record, quota, i, textHash);
    HonestStatus(db, record, textHash);
    InRange(record, i);
    HonestStatus(Extended(db, id, RowOf(record, i)), record, textHash);
    StartedReceiving(start, db, record, quota, textHash, i);
    assert Extended(db, id, RowOf(record, i)).uploads[id].status == StatusAfter(db.uploads[id], ChunksOf(db.chunks, id)[i := RowOf(record, i)]);
    ReceivingStaysLive(db.uploads[id], ChunksOf(db.chunks, id)[i := RowOf(record, i)]);
  }

  lemma ReceivingStaysLive(upload: Upload, rows: ChunkRows)
    requires upload.status.Receiving?
    ensures var after := StatusAfter(upload, rows); after.Receiving? || after.Complete? || after.Invalid?
  {
  }

  /** A missing chunk means the upload was not committed to begin with. */
  lemma StartedReceiving(start: Db, db: Db, record: TransferRecord, quota: nat, textHash: string -> string, i: nat)
    requires Going(start, db, record, quota, textHash) && i < |record.prepared.chunks| && i !in Received(db, record)
    ensures !StatusIs(start, record.prepared.identity.uploadId, Committed)
    ensures db.uploads[record.prepared.identity.uploadId].status.Receiving?
  {
    hide WellPrepared, Welcome, Room, KeysFree, Inv, OwnRows, UpTo;
    HonestStatus(db, record, textHash);
    InRange(record, i);
  }

  method BeginAndInspect(server: PostgresContent, record: TransferRecord, expiresAt: nat, now: nat)
      returns (received: Option<set<nat>>, capacity: bool)
    modifies server
    ensures capacity <==> Begun(old(server.Tables()), true, record.userId, Payload(record, expiresAt), server.quota).1 == BeginRefused(StorageLimit)
    ensures capacity ==> received.None?
    ensures now < expiresAt && old(Ready(server.Tables(), record, server.quota, server.textHash)) ==>
      && (received.Some? <==> !old(Overdue(server.Tables(), record, now)))
      && (received.None? && old(QuotaKept(server.Tables(), record, server.quota)) ==>
            Ready(server.Tables(), record, server.quota, server.textHash) && !Overdue(server.Tables(), record, now))
      && (received.Some? ==>
            && Going(old(server.Tables()), server.Tables(), record, server.quota, server.textHash)
            && !Overdue(server.Tables(), record, now)
            && received.value == Received(server.Tables(), record))
  {
    hide Ready, Going, Begun, StatusRead, Overdue;
    ghost var start := server.Tables();
    ghost var ready := now < expiresAt && Ready(start, record, server.quota, server.textHash);
    if ready {
      BeginIsGoing(start, record, server.quota, expiresAt, now, server.textHash);
    }
    var begun := server.Begin(true, record.userId, Payload(record, expiresAt));
    if begun.BeginRefused? {
      return None, begun.refusal == StorageLimit;
    }
    if ready {
      InspectGoing(start, server.Tables(), record, server.quota, server.textHash, now);
      if Overdue(start, record, now) && QuotaKept(start, record, server.quota) {
        SweepReady(start, server.Tables(), record, server.quota, expiresAt, server.textHash, now);
      }
    }
    var view := server.Status(record.prepared.identity.uploadId, record.userId, now);
    if view.None? || Revivable(view.value.upload.status) || view.value.upload.status.Invalid? {
      return None, false;
    }
    return Some(view.value.received), false;
  }

  lemma SweepReady(start: Db, db: Db, record: TransferRecord, quota: nat, expiresAt: nat, textHash: string -> string, now: nat)
    requires Ready(start, record, quota, textHash) && Overdue(start, record, now) && QuotaKept(start, record, quota)
    requires db == Begun(start, true, record.userId, Payload(record, expiresAt), quota).0 && Going(start, db, record, quota, textHash)
    requires Overdue(db, record, now)
    ensures var next := StatusRead(db, record.prepared.identity.uploadId, record.userId, now).0;
      Ready(next, record, quota, textHash) && !Overdue(next, record, now)
  {
    hide Resumable, WellPrepared, StatusRead, Begun;
    BeginReady(start, record.userId, record, quota, expiresAt, textHash);
    BegunKeepsNotes(start, record, quota, expiresAt);
    SweptIsResumable(db, record.userId, record, quota, now);
  }

  lemma BegunKeepsNotes(start: Db, record: TransferRecord, quota: nat, expiresAt: nat)
    ensures Begun(start, true, record.userId, Payload(record, expiresAt), quota).0.notes == start.notes
  {
    hide Begun, SameUpload, SectionsGrow, SectionOf, SameDeclaration;
    var base, upload := BeginShape(start, true, record.userId, Payload(record, expiresAt), quota);
  }

  lemma InspectGoing(start: Db, db: Db, record: TransferRecord, quota: nat, textHash: string -> string, now: nat)
    requires Going(start, db, record, quota, textHash)
    ensures var (next, view) := StatusRead(db, record.prepared.identity.uploadId, record.userId, now);
      && view.Some?
      && (Overdue(db, record, now) <==> Revivable(view.value.upload.status) || view.value.upload.status.Invalid?)
      && (!Overdue(db, record, now) ==> next == db && view.value.received == Received(db, record))
  {
    hide Resumable, WellPrepared, StatusRead, Overdue;
    StatusReady(db, record.userId, record, quota, now);
  }

  /** The prepared chunks before k are all received, and the upload is not overdue. */
  ghost predicate SentUpTo(start: Db, db: Db, record: TransferRecord, quota: nat, textHash: string -> string, received: set<nat>,
      now: nat, k: nat)
  {
    && Going(start, db, record, quota, textHash)
    && !Overdue(db, record, now)
    && received == Received(db, record)
    && (forall i :: 0 <= i < k ==> i in received)
  }

  /** No poll of the abort signal finds it aborted: one before begin, one before each chunk, one before the commit. */
  predicate Uninterrupted(signal: nat -> bool, chunks: nat) { forall i :: 0 <= i < chunks + 2 ==> !signal(i) }

  predicate NoAbort(signal: nat -> bool, chunks: nat) { forall i :: 1 <= i <= chunks ==> !signal(i) }

  method SendMissing(server: PostgresContent, store: TransferStore, record: TransferRecord, before: set<nat>, signal: nat -> bool,
      ghost now: nat, ghost start: Db) returns (sent: bool)
    modifies server`chunks, server`uploads, store
    ensures old(SentUpTo(start, server.Tables(), record, server.quota, server.textHash, before, now, 0)) ==>
      && (sent <==> NoAbort(signal, |record.prepared.chunks|))
      && Going(start, server.Tables(), record, server.quota, server.textHash)
      && !Overdue(server.Tables(), record, now)
      && (sent ==> UpTo(|record.prepared.chunks|) <= Received(server.Tables(), record))
    ensures exists received :: store.transfers == old(store.transfers)[KeyOf(record) := record.(uploaded := received)]
  {
    hide Going, Received, Overdue;
    var received: set<nat> := before;
    store.SaveProgress(record, received);
    ghost var going := SentUpTo(start, server.Tables(), record, server.quota, server.textHash, received, now, 0);
    for k := 0 to |record.prepared.chunks|
      invariant store.transfers == old(store.transfers)[KeyOf(record) := record.(uploaded := received)]
      invariant going ==> SentUpTo(start, server.Tables(), record, server.quota, server.textHash, received, now, k)
      invariant NoAbort(signal, k)
    {
      if signal(1 + k) {
        return false;
      }
      var ok;
      ok, received := SendOne(server, store, record, received, k, now, start);
      if !ok {
        return false;
      }
    }
    return true;
  }

  /** One turn of the upload loop. */
  method SendOne(server: PostgresContent, store: TransferStore, record: TransferRecord, before: set<nat>, k: nat,
      ghost now: nat, ghost start: Db)
    returns (ok: bool, received: set<nat>)
    requires k < |record.prepared.chunks|
    requires KeyOf(record) in store.transfers && store.transfers[KeyOf(record)] == record.(uploaded := before)
    modifies server`chunks, server`uploads, store
    ensures old(SentUpTo(start, server.Tables(), record, server.quota, server.textHash, before, now, k)) ==>
      ok && SentUpTo(start, server.Tables(), record, server.quota, server.textHash, received, now, k + 1)
    ensures store.transfers == old(store.transfers)[KeyOf(record) := record.(uploaded := received)]
  {
    hide Going, Registered, Received, Sendable, Overdue;
    var chunk := record.prepared.chunks[k];
    ok, received := true, before;
    if SentUpTo(start, server.Tables(), record, server.quota, server.textHash, before, now, k) {
      ChunkIsSendable(start, server.Tables(), record, server.quota, server.textHash, k);
      if k !in received {
        PutKeepsGoing(start, server.Tables(), record, server.quota, server.textHash, k);
        PutIsInTime(server.Tables(), record, RowOf(record, k), now);
      }
    }
    if 0 <= chunk.chunkIndex && chunk.chunkIndex in received {
      return;
    }
    ok := PutContentChunk(server, record.userId, record.prepared.identity.uploadId, chunk);
    if ok && 0 <= chunk.chunkIndex {
      received := received + {chunk.chunkIndex as nat};
      store.SaveProgress(record, received);
    }
  }

  /** Storing a chunk does not bring the expiry closer. */
  lemma PutIsInTime(db: Db, record: TransferRecord, row: StoredChunk, now: nat)
    requires !Overdue(db, record, now)
    ensures !Overdue(Registered(db, true, record.userId, record.prepared.identity.uploadId, row).0, record, now)
  {
    hide Registered, StatusAfter;
    var added := ChunkShape(db, true, record.userId, record.prepared.identity.uploadId, row);
  }

  lemma ChunkIsSendable(start: Db, db: Db, record: TransferRecord, quota: nat, textHash: string -> string, k: nat)
    requires Going(start, db, record, quota, textHash) && k < |record.prepared.chunks|
    ensures var id := record.prepared.identity.uploadId;
      var chunk := record.prepared.chunks[k];
      && id in db.uploads && chunk.chunkIndex == k && Sendable(chunk, db.uploads[id].chunkCount)
      && RowOf(record, k) == StoredChunk(chunk.chunkIndex, |chunk.cipherBytes|, chunk.cipherHash, NonceBytes(chunk))
  {
    hide Welcome, Room, KeysFree, Inv, OwnRows;
  }

  lemma AllReceived(start: Db, db: Db, record: TransferRecord, quota: nat, textHash: string -> string)
    requires Going(start, db, record, quota, textHash) && UpTo(|record.prepared.chunks|) <= Received(db, record)
    ensures Received(db, record) == UpTo(|record.prepared.chunks|)
  {
    hide WellPrepared, Welcome, Room, KeysFree, Inv;
  }

  /** The commit that ends a resume. */
  lemma CommitEnds(start: Db, db: Db, record: TransferRecord, quota: nat, textHash: string -> string, next: Db,
      outcome: CommitOutcome, now: nat)
    requires Going(start, db, record, quota, textHash) && UpTo(|record.prepared.chunks|) <= Received(db, record)
    requires CommitResult(db, true, record.userId, CommitOf(record), textHash, next, outcome)
    ensures outcome.CommittedAs? && Finished(next, record, outcome.manifestId, outcome.manifest)
    ensures Ready(next, record, quota, textHash) && !Overdue(next, record, now)
    ensures StatusIs(start, record.prepared.identity.uploadId, Committed) ==> SameContent(start, next)
    ensures !StatusIs(start, record.prepared.identity.uploadId, Committed) ==> RowWritten(next, record, outcome)
  {
    hide WellPrepared, Resumable, CommitResult, Finished, UpTo, RowWritten;
    AllReceived(start, db, record, quota, textHash);
    CommitReady(db, record.userId, record, quota, textHash, next, outcome);
    FinishedIsResumable(db, next, record.userId, record, quota, outcome, textHash);
  }

  /** Committed, out of room on the server, or thrown. */
  datatype UploadResult = ContentCommitted(manifestId: Id, manifest: Manifest) | ServerCapacity | UploadFailed(reason: string)

  /**
   A resume from any state an honest upload can be left in. It succeeds exactly when it is not
   interrupted and the upload is not overdue, and then ends in one committed manifest over exactly
   the prepared chunks, changing nothing if that was already so. However it ends, and wherever the
   abort signal stopped it, the upload can be resumed again; once it got as far as inspecting, it is
   not overdue any more. It never loses the record on failure.
   */
  method ResumeContentUpload(server: PostgresContent, store: TransferStore, record: TransferRecord, expiresAt: nat,
      now: nat, signal: nat -> bool)
    returns (result: UploadResult)
    modifies server, store
    ensures now < expiresAt && old(Ready(server.Tables(), record, server.quota, server.textHash)) ==>
      && (result.ContentCommitted? <==> Uninterrupted(signal, |record.prepared.chunks|) && !old(Overdue(server.Tables(), record, now)))
      && (old(QuotaKept(server.Tables(), record, server.quota)) ==>
            && Ready(server.Tables(), record, server.quota, server.textHash)
            && (!signal(0) ==> !Overdue(server.Tables(), record, now)))
      && (result.ContentCommitted? ==>
            && Finished(server.Tables(), record, result.manifestId, result.manifest)
            && (old(StatusIs(server.Tables(), record.prepared.identity.uploadId, Committed)) ==>
                  SameContent(old(server.Tables()), server.Tables()))
            && (!old(StatusIs(server.Tables(), record.prepared.identity.uploadId, Committed)) ==>
                  RowWritten(server.Tables(), record, CommittedAs(result.manifestId, result.manifest))))
    ensures signal(0) ==> server.Tables() == old(server.Tables())
    ensures !signal(0) && Begun(old(server.Tables()), true, record.userId, Payload(record, expiresAt), server.quota).1 == BeginRefused(StorageLimit) ==>
      result.ServerCapacity?
    ensures result.ContentCommitted? ==> store.transfers == old(store.transfers) - {KeyOf(record)}
    ensures !result.ContentCommitted? ==> KeptRecord(old(store.transfers), store.transfers, record)
  {
    hide Finished, Ready, Overdue, SameContent, Going, CommitResult, Received, StatusIs, Begun, QuotaKept, Payload, CommitOf, UpTo, RowWritten;
    if signal(0) {
      return UploadFailed("Content transfer aborted");
    }
    ghost var start := server.Tables();
    ghost var ready := now < expiresAt && Ready(start, record, server.quota, server.textHash);
    var received, capacity := BeginAndInspect(server, record, expiresAt, now);
    if received.None? {
      return if capacity then ServerCapacity else UploadFailed("Encrypted content upload cannot be resumed");
    }
    var sent := SendMissing(server, store, record, received.value, signal, now, start);
    if ready {
      GoingIsReady(start, server.Tables(), record, server.quota, server.textHash);
    }
    if !sent || signal(|record.prepared.chunks| + 1) {
      return UploadFailed("Content transfer aborted");
    }
    result := CommitAndForget(server, store, record, start, now);
  }

  predicate AllSent(db: Db, record: TransferRecord) { UpTo(|record.prepared.chunks|) <= Received(db, record) }

  method CommitAndForget(server: PostgresContent, store: TransferStore, record: TransferRecord, ghost start: Db, ghost now: nat)
      returns (result: UploadResult)
    modifies server, store
    ensures old(Going(start, server.Tables(), record, server.quota, server.textHash) && AllSent(server.Tables(), record)) ==>
      && result.ContentCommitted?
      && Finished(server.Tables(), record, result.manifestId, result.manifest)
      && Ready(server.Tables(), record, server.quota, server.textHash) && !Overdue(server.Tables(), record, now)
      && (StatusIs(start, record.prepared.identity.uploadId, Committed) ==> SameContent(start, server.Tables()))
      && (!StatusIs(start, record.prepared.identity.uploadId, Committed) ==>
            RowWritten(server.Tables(), record, CommittedAs(result.manifestId, result.manifest)))
    ensures result.ContentCommitted? ==> store.transfers == old(store.transfers) - {KeyOf(record)}
    ensures !result.ContentCommitted? ==> store.transfers == old(store.transfers)
  {
    hide Finished, Ready, Overdue, SameContent, Going, CommitResult, Received, StatusIs, UpTo, RowWritten;
    ghost var before := server.Tables();
    var outcome := server.Commit(true, record.userId, CommitOf(record));
    if Going(start, before, record, server.quota, server.textHash) && UpTo(|record.prepared.chunks|) <= Received(before, record) {
      CommitEnds(start, before, record, server.quota, server.textHash, server.Tables(), outcome, now);
    }
    if outcome.CommitRefused? {
      return if outcome.refusal == StorageLimit then ServerCapacity else UploadFailed("Encrypted content commit was refused");
    }
    store.transfers := store.transfers - {KeyOf(record)};
    return ContentCommitted(outcome.manifestId, outcome.manifest);
  }

  lemma GoingIsReady(start: Db, db: Db, record: TransferRecord, quota: nat, textHash: string -> string)
    requires Going(start, db, record, quota, textHash)
    ensures Ready(db, record, quota, textHash)
  {
  }

  /** A failed resume leaves the record as it was, or with its progress noted. */
  ghost predicate KeptRecord(before: map<TransferKey, TransferRecord>, after: map<TransferKey, TransferRecord>, record: TransferRecord) {
    after == before || exists received :: after == before[KeyOf(record) := record.(uploaded := received)]
  }

  // ----- what the encoder prepares is well prepared -----

  /** Every output of the chunk encoder, under the hash the server uses, is a well prepared transfer. */
  lemma EncodedIsWellPrepared(crypto: ContentCodec.Crypto, key: Id, identity: ContentCodec.Identity, plaintext: Bytes,
      max: int,
                              nonces: nat -> Bytes, record: TransferRecord)
    requires ContentCodec.Ideal(crypto) && SealedFrom(crypto, key, identity, plaintext, max, nonces, record.prepared)
    ensures WellPrepared(record, crypto.textHash)
  {
    hide ContentCodec.Ideal, ContentCodec.Slice, ContentCodec.Refused, Lines, ContentCodec.CipherTotal, Base64.FromCanonical, ContentCodec.OpenChunk,
      Base64.Encode;
    var p := record.prepared;
    var rows := AllRows(record);
    forall i | 0 <= i < |p.chunks|
      ensures p.chunks[i].chunkIndex == i && 0 < |p.chunks[i].cipherBytes|
      ensures Base64.FromCanonical(p.chunks[i].nonce) == Some(nonces(i))
    {
      PreparedChunkOpens(crypto, key, identity, plaintext, max, nonces, p, i);
      Base64.CanonicalIffEncoding(p.chunks[i].nonce, nonces(i));
    }
    PreparedCounts(crypto, key, identity, plaintext, max, nonces, p);
    BothSidesHashAlike(crypto, p.chunks, rows, p.chunks, rows);
    Sorting.SortOfPermutation(rows, rows, StoredIndex());
  }
}
