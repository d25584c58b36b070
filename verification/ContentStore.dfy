/**
 The server's encrypted-content store: uploads, their chunk rows, committed manifests and the
 storage account they draw on. One function and one method per database transaction.
 */
module ContentStore {
  import opened Basics
  import opened Totals
  import opened SectionHistory
  import opened ManifestText
  import opened VerifiedContent

  datatype UploadStatus = Receiving | Complete | Committed | Aborted | Expired | Invalid

  /** A note's owner and crypto owner never change; everything else about it may. */
  datatype Note = Note(ownerUserId: Id, cryptoOwnerId: Id, keyEpoch: nat, rotationFenced: bool, isDeleted: bool)

  datatype Membership = Membership(role: Role, status: MemberStatus)

  datatype MemberKey = MemberKey(noteId: Id, userId: Id)

  /** `ops` stands for what the sealed chunks mean to a key holder. */
  datatype Upload = Upload(
    updateId: Id, noteId: Id, sectionId: Id, cryptoOwnerId: Id, keyEpoch: nat, kind: Kind, formatVersion: nat,
    totalCipherBytes: nat, chunkCount: nat, manifestHash: string, checkpointSequenceCutoff: Option<nat>,
    ops: set<Op>, status: UploadStatus, expiresAt: nat)

  type ChunkRows = map<nat, StoredChunk>

  datatype Manifest = Manifest(
    uploadId: Id, updateId: Id, noteId: Id, sectionId: Id, keyEpoch: nat, kind: Kind, firstSequence: nat,
    totalCipherBytes: nat, chunkCount: nat, manifestHash: string, checkpointSequenceCutoff: Option<nat>)

  datatype Account = Account(used: nat, reserved: nat)

  datatype Attachment = Attachment(noteId: Id, ownerUserId: Id, size: nat)

  datatype Db = Db(
    notes: map<Id, Note>,
    members: map<MemberKey, Membership>,
    log: Log,
    uploads: map<Id, Upload>,
    chunks: map<Id, ChunkRows>,
    manifests: map<Id, Manifest>,
    attachments: map<Id, Attachment>,
    accounts: map<Id, Account>)

  datatype BeginInput = BeginInput(
    uploadId: Id, updateId: Id, noteId: Id, sectionId: SectionRef, expectedKeyEpoch: nat, kind: Kind, formatVersion: nat,
    totalCipherBytes: nat, chunkCount: nat, manifestHash: string, checkpointSequenceCutoff: Option<nat>,
    ops: set<Op>, expiresAt: nat)

  datatype View = View(upload: Upload, received: set<nat>)

  datatype Refusal =
    Unauthorized | NotFound | Conflict | RotationPending | StaleEpoch | StorageLimit | ChunkMissing | ManifestMismatch | ChunkConflict

  datatype BeginOutcome = Created(view: View) | Existing(view: View) | BeginRefused(refusal: Refusal)

  datatype ChunkOutcome = Stored | Raced | ChunkRefused(refusal: Refusal)

  datatype AbortOutcome = AbortDone | AbortRefused(refusal: Refusal)

  datatype CommitOutcome = CommittedAs(manifestId: Id, manifest: Manifest) | CommitRefused(refusal: Refusal)

  datatype CommitInput = CommitInput(requestId: Id, uploadId: Id, updateId: Id, expectedKeyEpoch: nat)

  // ----- reading the tables -----

  function AccessOf(db: Db, noteId: Id, userId: Id): (access: Option<Access>)
    ensures access.Some? ==> noteId in db.notes && access.value.ownerUserId == db.notes[noteId].ownerUserId
  {
    if noteId in db.notes && MemberKey(noteId, userId) in db.members then
      var note, member := db.notes[noteId], db.members[MemberKey(noteId, userId)];
      Some(Access(note.ownerUserId, note.cryptoOwnerId, note.keyEpoch, note.rotationFenced, note.isDeleted, member.role, member.status))
    else None
  }

  function ChunksOf(chunks: map<Id, ChunkRows>, uploadId: Id): ChunkRows {
    if uploadId in chunks then chunks[uploadId] else map[]
  }

  predicate Reserves(status: UploadStatus) { status.Receiving? || status.Complete? || status.Invalid? }

  function ViewOf(db: Db, uploadId: Id): View
    requires uploadId in db.uploads
  {
    View(db.uploads[uploadId], ChunksOf(db.chunks, uploadId).Keys)
  }

  predicate SameUpload(upload: Upload, input: BeginInput, stored: Id) {
    && upload.updateId == input.updateId
    && upload.noteId == input.noteId
    && upload.sectionId == stored
    && upload.keyEpoch == input.expectedKeyEpoch
    && upload.kind == input.kind
    && upload.formatVersion == input.formatVersion
    && upload.totalCipherBytes == input.totalCipherBytes
    && upload.chunkCount == input.chunkCount
    && upload.manifestHash == input.manifestHash
    && upload.checkpointSequenceCutoff == input.checkpointSequenceCutoff
  }

  predicate SameChunk(a: StoredChunk, b: StoredChunk) {
    a.cipherLength == b.cipherLength && a.cipherHash == b.cipherHash && a.nonce == b.nonce
  }

  /** The upload id or the update id is taken. */
  predicate Claimed(uploads: map<Id, Upload>, input: BeginInput) {
    input.uploadId in uploads || exists id :: id in uploads && uploads[id].updateId == input.updateId
  }

  function RowLengths(rows: ChunkRows): map<nat, nat> {
    map i | i in rows :: rows[i].cipherLength
  }

  ghost function ReceivedBytes(rows: ChunkRows): nat {
    Total(RowLengths(rows))
  }

  predicate Contiguous(rows: ChunkRows, count: nat) {
    |rows| == count && forall i :: 0 <= i < count ==> i in rows
  }

  function OrderedRows(rows: ChunkRows, count: nat): (s: seq<StoredChunk>)
    requires Contiguous(rows, count)
    ensures |s| == count && forall i :: 0 <= i < count ==> s[i] == rows[i]
  {
    seq(count, i requires 0 <= i < count => rows[i])
  }

  /** The unique index on upload_id, read as a lookup. */
  predicate HasManifest(manifests: map<Id, Manifest>, uploadId: Id) {
    exists id :: id in manifests && manifests[id].uploadId == uploadId
  }

  predicate IsManifestOf(manifests: map<Id, Manifest>, id: Id, uploadId: Id) {
    id in manifests && manifests[id].uploadId == uploadId
  }

  // ----- the storage account -----

  function EnsuredAccount(accounts: map<Id, Account>, userId: Id): map<Id, Account> {
    if userId in accounts then accounts else accounts[userId := Account(0, 0)]
  }

  predicate Fits(account: Account, bytes: nat, quota: nat) { account.used + account.reserved + bytes <= quota }

  function Reserve(accounts: map<Id, Account>, userId: Id, bytes: nat, quota: nat): (map<Id, Account>, bool) {
    var ensured := EnsuredAccount(accounts, userId);
    if Fits(ensured[userId], bytes, quota)
    then (ensured[userId := ensured[userId].(reserved := ensured[userId].reserved + bytes)], true)
    else (ensured, false)
  }

  function Release(accounts: map<Id, Account>, userId: Id, bytes: nat): map<Id, Account> {
    if userId !in accounts then accounts
    else accounts[userId := accounts[userId].(reserved := Max(accounts[userId].reserved - bytes, 0))]
  }

  // ----- the upload transactions -----

  function BeginGate(access: Option<Access>, input: BeginInput): Option<Refusal> {
    if !CanEdit(access) then Some(NotFound)
    else if access.value.isDeleted then Some(Conflict)
    else if access.value.rotationFenced then Some(Refusal.RotationPending)
    else if access.value.keyEpoch != input.expectedKeyEpoch then Some(Refusal.StaleEpoch)
    else None
  }

  function NewUpload(input: BeginInput, stored: Id, cryptoOwnerId: Id): Upload {
    Upload(input.updateId, input.noteId, stored, cryptoOwnerId, input.expectedKeyEpoch, input.kind, input.formatVersion,
           input.totalCipherBytes, input.chunkCount, input.manifestHash, input.checkpointSequenceCutoff, input.ops,
           Receiving, input.expiresAt)
  }

  predicate Revivable(status: UploadStatus) { status.Expired? || status.Aborted? }

  /** Put an upload (new or revived) into receiving, without chunks, with its bytes reserved. */
  function Opened(db: Db, owner: Id, uploadId: Id, upload: Upload, quota: nat): Option<Db> {
    var (accounts, reserved) := Reserve(db.accounts, owner, upload.totalCipherBytes, quota);
    if !reserved then None
    else Some(db.(accounts := accounts, chunks := db.chunks - {uploadId}, uploads := db.uploads[uploadId := upload]))
  }

  function BegunInSection(db: Db, access: Access, stored: Id, input: BeginInput, quota: nat): (Db, BeginOutcome) {
    var taken := Claimed(db.uploads, input);
    var limit := db.(accounts := EnsuredAccount(db.accounts, access.ownerUserId));
    if taken && !(input.uploadId in db.uploads && SameUpload(db.uploads[input.uploadId], input, stored)) then
      (db, BeginRefused(Conflict))
    else if taken && !Revivable(db.uploads[input.uploadId].status) then (db, Existing(ViewOf(db, input.uploadId)))
    else
      var upload := if taken then db.uploads[input.uploadId].(status := Receiving, expiresAt := input.expiresAt)
                    else NewUpload(input, stored, access.cryptoOwnerId);
      var next := Opened(db, access.ownerUserId, input.uploadId, upload, quota);
      if next.None? then (limit, BeginRefused(StorageLimit))
      else (next.value, if taken then Existing(ViewOf(next.value, input.uploadId)) else Created(ViewOf(next.value, input.uploadId)))
  }

  function Begun(db: Db, session: bool, userId: Id, input: BeginInput, quota: nat): (Db, BeginOutcome) {
    var access := AccessOf(db, input.noteId, userId);
    var gate := BeginGate(access, input);
    if !session then (db, BeginRefused(Unauthorized))
    else if gate.Some? then (db, BeginRefused(gate.value))
    else
      var ensured := db.(log := db.log.(sections := EnsuredSections(db.log, input.noteId, input.sectionId, input.expectedKeyEpoch)));
      var stored := StorageSectionId(input.noteId, input.sectionId);
      if !Usable(ensured.log.sections, stored, input.noteId, input.expectedKeyEpoch) then (ensured, BeginRefused(NotFound))
      else BegunInSection(ensured, access.value, stored, input, quota)
  }

  /** Give the bytes back, forget the chunks, and leave the upload in the given final state. */
  function Closed(db: Db, owner: Id, uploadId: Id, status: UploadStatus): Db
    requires uploadId in db.uploads
  {
    db.(accounts := Release(db.accounts, owner, db.uploads[uploadId].totalCipherBytes),
        chunks := db.chunks - {uploadId},
        uploads := db.uploads[uploadId := db.uploads[uploadId].(status := status)])
  }

  function StatusRead(db: Db, uploadId: Id, userId: Id, now: nat): (Db, Option<View>) {
    if uploadId !in db.uploads then (db, None)
    else
      var upload := db.uploads[uploadId];
      var access := AccessOf(db, upload.noteId, userId);
      if !CanEdit(access) then (db, None)
      else
        var next := if Reserves(upload.status) && upload.expiresAt <= now
                    then Closed(db, access.value.ownerUserId, uploadId, Expired) else db;
        (next, Some(ViewOf(next, uploadId)))
  }

  function ChunkGate(db: Db, session: bool, userId: Id, uploadId: Id): Option<Refusal> {
    if !session then Some(Unauthorized)
    else if uploadId !in db.uploads then Some(NotFound)
    else
      var upload := db.uploads[uploadId];
      var access := AccessOf(db, upload.noteId, userId);
      if !CanEdit(access) then Some(NotFound)
      else if access.value.isDeleted then Some(Conflict)
      else if access.value.rotationFenced then Some(Refusal.RotationPending)
      else if access.value.keyEpoch != upload.keyEpoch then Some(Refusal.StaleEpoch)
      else if !upload.status.Receiving? && !upload.status.Complete? then Some(Conflict)
      else None
  }

  /** Where an upload stands once these rows have arrived. */
  ghost function StatusAfter(upload: Upload, rows: ChunkRows): UploadStatus {
    if ReceivedBytes(rows) > upload.totalCipherBytes then Invalid
    else if |rows| == upload.chunkCount && ReceivedBytes(rows) == upload.totalCipherBytes then Complete
    else upload.status
  }

  ghost function Registered(db: Db, session: bool, userId: Id, uploadId: Id, chunk: StoredChunk): (Db, ChunkOutcome) {
    var gate := ChunkGate(db, session, userId, uploadId);
    if gate.Some? then (db, ChunkRefused(gate.value))
    else
      var rows := ChunksOf(db.chunks, uploadId);
      if chunk.chunkIndex in rows then
        (db, if SameChunk(rows[chunk.chunkIndex], chunk) then Raced else ChunkRefused(ChunkConflict))
      else
        var longer := rows[chunk.chunkIndex := chunk];
        var status := StatusAfter(db.uploads[uploadId], longer);
        (db.(chunks := db.chunks[uploadId := longer],
             uploads := db.uploads[uploadId := db.uploads[uploadId].(status := status)]),
         if ReceivedBytes(longer) > db.uploads[uploadId].totalCipherBytes then ChunkRefused(ManifestMismatch) else Stored)
  }

  function AbortGate(db: Db, session: bool, userId: Id, uploadId: Id): Option<Refusal> {
    if !session then Some(Unauthorized)
    else if uploadId !in db.uploads || !CanEdit(AccessOf(db, db.uploads[uploadId].noteId, userId)) then Some(NotFound)
    else if db.uploads[uploadId].status.Committed? then Some(Conflict)
    else None
  }

  function AbortedBy(db: Db, session: bool, userId: Id, uploadId: Id): (Db, AbortOutcome) {
    var gate := AbortGate(db, session, userId, uploadId);
    if gate.Some? then (db, AbortRefused(gate.value))
    else
      var upload := db.uploads[uploadId];
      (if Reserves(upload.status) then Closed(db, AccessOf(db, upload.noteId, userId).value.ownerUserId, uploadId, Aborted) else db,
       AbortDone)
  }

  // ----- commit -----

  function CommitGate(db: Db, session: bool, userId: Id, input: CommitInput): Option<Refusal> {
    if !session then Some(Unauthorized)
    else if input.uploadId !in db.uploads then Some(NotFound)
    else
      var upload := db.uploads[input.uploadId];
      var access := AccessOf(db, upload.noteId, userId);
      if !CanEdit(access) then Some(NotFound)
      else if access.value.isDeleted then Some(Conflict)
      else if access.value.rotationFenced then Some(Refusal.RotationPending)
      else if upload.updateId != input.updateId || upload.keyEpoch != input.expectedKeyEpoch
              || access.value.keyEpoch != input.expectedKeyEpoch then Some(Refusal.StaleEpoch)
      else None
  }

  function ManifestRow(upload: Upload, uploadId: Id, manifestId: Id, sequence: nat): Row {
    Row(upload.updateId, upload.noteId, upload.sectionId, sequence, upload.cryptoOwnerId, upload.keyEpoch, upload.kind,
        upload.checkpointSequenceCutoff, None, None, Some(manifestId), Some(uploadId), Some(upload.totalCipherBytes),
        Some(upload.chunkCount), Some(upload.manifestHash), upload.ops)
  }

  function NewManifest(upload: Upload, uploadId: Id, sequence: nat): Manifest {
    Manifest(uploadId, upload.updateId, upload.noteId, upload.sectionId, upload.keyEpoch, upload.kind, sequence,
             upload.totalCipherBytes, upload.chunkCount, upload.manifestHash, upload.checkpointSequenceCutoff)
  }

  /** The checks on the rows themselves, before anything is written. */
  ghost function RowsRefusal(upload: Upload, rows: ChunkRows, textHash: string -> string): Option<Refusal> {
    if !upload.status.Complete? || !Contiguous(rows, upload.chunkCount) || ReceivedBytes(rows) != upload.totalCipherBytes
    then Some(ChunkMissing)
    else if textHash(Lines(StoredDescriptors(OrderedRows(rows, upload.chunkCount)))) != upload.manifestHash
    then Some(ManifestMismatch)
    else None
  }

  function SectionRefusal(log: Log, upload: Upload): Option<Refusal> {
    if upload.sectionId !in log.sections || log.sections[upload.sectionId].noteId != upload.noteId
       || log.sections[upload.sectionId].isDeleted then Some(NotFound)
    else if upload.kind.Checkpoint? && (upload.checkpointSequenceCutoff.None?
            || upload.checkpointSequenceCutoff.value > log.sections[upload.sectionId].currentSequence) then Some(Conflict)
    else None
  }

  /** A unique key of content_manifests or section_updates is taken by another row. */
  predicate KeyTaken(db: Db, upload: Upload, input: CommitInput) {
    || input.requestId in db.manifests
    || (exists id :: id in db.manifests && db.manifests[id].updateId == upload.updateId)
    || upload.updateId in db.log.updates
  }

  predicate CanPay(accounts: map<Id, Account>, owner: Id, bytes: nat) {
    owner in accounts && accounts[owner].reserved >= bytes
  }

  /** Refused, or the database after the writes. */
  datatype Written = Written(db: Db, manifest: Manifest) | NotWritten(refusal: Refusal)

  ghost function Write(db: Db, owner: Id, input: CommitInput, textHash: string -> string): Written
    requires input.uploadId in db.uploads
  {
    var upload := db.uploads[input.uploadId];
    var rows := RowsRefusal(upload, ChunksOf(db.chunks, input.uploadId), textHash);
    var section := SectionRefusal(db.log, upload);
    if rows.Some? then NotWritten(rows.value)
    else if section.Some? then NotWritten(section.value)
    else if KeyTaken(db, upload, input) then NotWritten(Conflict)
    else if !CanPay(db.accounts, owner, upload.totalCipherBytes) then NotWritten(StorageLimit)
    else
      var sequence := db.log.sections[upload.sectionId].currentSequence + 1;
      var account := db.accounts[owner];
      var manifest := NewManifest(upload, input.uploadId, sequence);
      Written(db.(manifests := db.manifests[input.requestId := manifest],
                  log := Append(db.log, ManifestRow(upload, input.uploadId, input.requestId, sequence)),
                  accounts := db.accounts[owner := Account(account.used + upload.totalCipherBytes, account.reserved - upload.totalCipherBytes)],
                  uploads := db.uploads[input.uploadId := upload.(status := Committed)]),
              manifest)
  }

  /** What a commit may answer and leave behind. A refusal is rolled back. */
  ghost predicate CommitResult(db: Db, session: bool, userId: Id, input: CommitInput, textHash: string -> string,
                               next: Db, outcome: CommitOutcome) {
    var gate := CommitGate(db, session, userId, input);
    if gate.Some? then next == db && outcome == CommitRefused(gate.value)
    else if HasManifest(db.manifests, input.uploadId) then
      && next == db && outcome.CommittedAs?
      && IsManifestOf(db.manifests, outcome.manifestId, input.uploadId)
      && db.manifests[outcome.manifestId] == outcome.manifest
    else
      var owner := AccessOf(db, db.uploads[input.uploadId].noteId, userId).value.ownerUserId;
      match Write(db, owner, input, textHash)
      case NotWritten(refusal) => next == db && outcome == CommitRefused(refusal)
      case Written(after, manifest) => next == after && outcome == CommittedAs(input.requestId, manifest)
  }

  // ----- maintenance -----

  predicate Expirable(db: Db, id: Id, cutoff: nat) {
    && id in db.uploads
    && Reserves(db.uploads[id].status)
    && db.uploads[id].expiresAt <= cutoff
    && db.uploads[id].noteId in db.notes
  }

  function ExpireOne(db: Db, id: Id): Db
    requires id in db.uploads && db.uploads[id].noteId in db.notes
  {
    Closed(db, db.notes[db.uploads[id].noteId].ownerUserId, id, Expired)
  }

  predicate Owns(notes: map<Id, Note>, noteId: Id, userId: Id) {
    noteId in notes && notes[noteId].ownerUserId == userId
  }

  /** The bytes an upload holds for this user. */
  function UploadWeight(notes: map<Id, Note>, upload: Upload, userId: Id): nat {
    if Owns(notes, upload.noteId, userId) && Reserves(upload.status) then upload.totalCipherBytes else 0
  }

  function ManifestWeight(notes: map<Id, Note>, manifest: Manifest, userId: Id): nat {
    if Owns(notes, manifest.noteId, userId) then manifest.totalCipherBytes else 0
  }

  function AttachmentWeight(notes: map<Id, Note>, attachment: Attachment, userId: Id): nat {
    if Owns(notes, attachment.noteId, userId) then attachment.size else 0
  }

  function UploadWeights(notes: map<Id, Note>, uploads: map<Id, Upload>, userId: Id): map<Id, nat> {
    map id | id in uploads :: UploadWeight(notes, uploads[id], userId)
  }

  function ManifestWeights(notes: map<Id, Note>, manifests: map<Id, Manifest>, userId: Id): map<Id, nat> {
    map id | id in manifests :: ManifestWeight(notes, manifests[id], userId)
  }

  function AttachmentWeights(notes: map<Id, Note>, attachments: map<Id, Attachment>, userId: Id): map<Id, nat> {
    map id | id in attachments :: AttachmentWeight(notes, attachments[id], userId)
  }

  /** The counters recomputed from the rows. */
  ghost function Recomputed(db: Db, userId: Id): Account {
    Account(Total(ManifestWeights(db.notes, db.manifests, userId)) + Total(AttachmentWeights(db.notes, db.attachments, userId)),
            Total(UploadWeights(db.notes, db.uploads, userId)))
  }

  ghost function Reconciled(db: Db, userId: Id): Db {
    db.(accounts := db.accounts[userId := Recomputed(db, userId)])
  }

  /** SUM over a column. */
  method Sum<K>(m: map<K, nat>) returns (total: nat)
    ensures total == Total(m)
  {
    total := 0;
    var rest := m;
    while rest != map[]
      invariant total + Total(rest) == Total(m)
      decreases |rest|
    {
      var k :| k in rest;
      TotalRemove(rest, k);
      total := total + rest[k];
      rest := rest - {k};
    }
  }
}
