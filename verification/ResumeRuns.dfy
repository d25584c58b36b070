/**
 How an upload comes to be resumable: over any run of its own requests and sweeps, from an empty
 database or from wherever an earlier resume was interrupted, and beside whatever other clients do.
 */
module ResumeRuns {
  import opened Basics
  import opened Totals
  import opened SectionHistory
  import opened ContentStore
  import opened ContentRepositories
  import opened AttachmentRepository
  import opened UploadLifecycle
  import opened VerifiedContent
  import opened StorageLedger
  import opened ResumeUpload
  import ContentCodec
  import Base64
  import ContentTerms
  import HistoryMeaning

  function UploadIdOf(record: TransferRecord): Id { record.prepared.identity.uploadId }

  // ----- the upload's own requests, in any order and however often -----

  /** A request of this upload's client, or a sweep that hits it. */
  predicate OwnStep(step: Step, record: TransferRecord) {
    match step
    case BeginStep(session, userId, input) => userId == record.userId && input == ResumeUpload.Payload(record, input.expiresAt)
    case StatusStep(uploadId, userId, now) => userId == record.userId && uploadId == UploadIdOf(record)
    case ChunkStep(session, userId, uploadId, chunk) =>
      userId == record.userId && uploadId == UploadIdOf(record) && OwnChunk(chunk, record)
    case AbortStep(session, userId, uploadId) => userId == record.userId && uploadId == UploadIdOf(record)
    case CommitStep(session, userId, request) => userId == record.userId && request == CommitOf(record)
    case ExpireStep(uploadId, cutoff) => uploadId == UploadIdOf(record)
    case _ => false
  }

  predicate OwnChunk(chunk: StoredChunk, record: TransferRecord) {
    chunk.chunkIndex < |record.prepared.chunks| && chunk == RowOf(record, chunk.chunkIndex)
  }

  ghost predicate StaysReady(config: Config, db: Db, record: TransferRecord) {
    Ready(db, record, config.quota, config.textHash) && QuotaKept(db, record, config.quota)
  }

  lemma BeginStaysReady(config: Config, db: Db, session: bool, record: TransferRecord, expiresAt: nat)
    requires StaysReady(config, db, record)
    ensures StaysReady(config, Begun(db, session, record.userId, ResumeUpload.Payload(record, expiresAt), config.quota).0, record)
  {
    hide Begun, WellPrepared, Resumable;
    if session {
      BeginReady(db, record.userId, record, config.quota, expiresAt, config.textHash);
      BeginKeepsQuota(db, session, record.userId, record, ResumeUpload.Payload(record, expiresAt), config.quota);
    } else {
      NoSessionNoBegin(db, record, expiresAt, config.quota);
    }
  }

  lemma NoSessionNoBegin(db: Db, record: TransferRecord, expiresAt: nat, quota: nat)
    ensures Begun(db, false, record.userId, ResumeUpload.Payload(record, expiresAt), quota).0 == db
  {
  }

  lemma BeginKeepsQuota(db: Db, session: bool, userId: Id, record: TransferRecord, input: BeginInput, quota: nat)
    requires QuotaKept(db, record, quota)
    ensures QuotaKept(Begun(db, session, userId, input, quota).0, record, quota)
  {
    hide Begun, SameUpload, SectionsGrow, SectionOf;
    var base, upload := BeginShape(db, session, userId, input, quota);
    var noteId := record.prepared.identity.noteId;
    if noteId in db.notes {
      assert Balance(base.accounts, db.notes[noteId].ownerUserId) == Balance(db.accounts, db.notes[noteId].ownerUserId);
    }
  }

  lemma StatusStaysReady(config: Config, db: Db, record: TransferRecord, now: nat)
    requires StaysReady(config, db, record)
    ensures StaysReady(config, StatusRead(db, UploadIdOf(record), record.userId, now).0, record)
  {
    hide WellPrepared, Resumable, QuotaKept, Overdue;
    if UploadIdOf(record) in db.uploads {
      hide StatusRead;
      StatusReady(db, record.userId, record, config.quota, now);
      if Overdue(db, record, now) {
        SweptIsResumable(db, record.userId, record, config.quota, now);
      }
    }
  }

  lemma ChunkStaysReady(config: Config, db: Db, session: bool, record: TransferRecord, chunk: StoredChunk)
    requires StaysReady(config, db, record) && OwnChunk(chunk, record)
    ensures StaysReady(config, Registered(db, session, record.userId, UploadIdOf(record), chunk).0, record)
  {
    hide WellPrepared, Resumable, Registered, StatusAfter, RowOf;
    var added := ChunkShape(db, session, record.userId, UploadIdOf(record), chunk);
    if added {
      PutReady(db, record.userId, record, config.quota, chunk.chunkIndex, config.textHash);
    }
  }

  lemma CloseStaysReady(config: Config, w: World, step: Step, record: TransferRecord)
    requires StaysReady(config, w.db, record) && ClosingStep(step) && step.uploadId == UploadIdOf(record)
    ensures StaysReady(config, Next(config, w, step).db, record)
  {
    hide Next, WellPrepared, Closed, QuotaKept, Inv, OwnRows, Room, KeysFree, Welcome;
    var id, status := ClosingShape(config, w, step);
    if status.Some? {
      ClosedIsResumable(w.db, record.userId, record, config.quota, status.value);
    }
  }

  /** A commit that writes nothing changes nothing; one that writes had all its chunks. */
  lemma CommitStaysReady(config: Config, db: Db, session: bool, record: TransferRecord)
    requires StaysReady(config, db, record)
    ensures StaysReady(config, CommitNext(config, db, session, record.userId, CommitOf(record)), record)
  {
    hide WellPrepared, Write, Inv, OwnRows, Room, KeysFree, Welcome, QuotaKept, UpTo;
    var input := CommitOf(record);
    if CommitGate(db, session, record.userId, input).None? && !HasManifest(db.manifests, input.uploadId) {
      var owner := AccessOf(db, db.uploads[input.uploadId].noteId, record.userId).value.ownerUserId;
      var written := Write(db, owner, input, config.textHash);
      if written.Written? {
        WriteShape(db, owner, input, config.textHash);
        HonestStatus(db, record, config.textHash);
        GateNeedsSession(db, session, record.userId, input);
        FinishedIsResumable(db, written.db, record.userId, record, config.quota, CommittedAs(input.requestId, written.manifest), config.textHash);
        WriteKeepsQuota(db, owner, input, config.textHash, record, config.quota);
      }
    }
  }

  lemma GateNeedsSession(db: Db, session: bool, userId: Id, input: CommitInput)
    requires CommitGate(db, session, userId, input).None?
    ensures session
  {
  }

  lemma WriteKeepsQuota(db: Db, owner: Id, input: CommitInput, textHash: string -> string, record: TransferRecord, quota: nat)
    requires QuotaKept(db, record, quota) && input.uploadId in db.uploads && Write(db, owner, input, textHash).Written?
    ensures QuotaKept(Write(db, owner, input, textHash).db, record, quota)
  {
    hide Append, NewManifest, ManifestRow, OrderedRows, ReceivedBytes, Contiguous, SectionRefusal, KeyTaken;
  }

  lemma OwnStepStaysReady(config: Config, w: World, step: Step, record: TransferRecord)
    requires StaysReady(config, w.db, record) && OwnStep(step, record)
    ensures StaysReady(config, Next(config, w, step).db, record)
  {
    hide StaysReady, Begun, StatusRead, Registered, AbortedBy, CommitNext, ExpireOne, ResumeUpload.Payload, CommitOf, OwnChunk;
    match step
    case BeginStep(session, userId, input) => BeginStaysReady(config, w.db, session, record, input.expiresAt);
    case StatusStep(uploadId, userId, now) => StatusStaysReady(config, w.db, record, now);
    case ChunkStep(session, userId, uploadId, chunk) => ChunkStaysReady(config, w.db, session, record, chunk);
    case CommitStep(session, userId, request) => CommitStaysReady(config, w.db, session, record);
    case _ => CloseStaysReady(config, w, step, record);
  }

  /**
   However a resume was interrupted, and however often the upload was begun, swept, aborted or
   retried in between, the state it leaves can be resumed.
   */
  lemma {:induction false} InterruptedIsReady(config: Config, w: World, steps: seq<Step>, record: TransferRecord)
    requires StaysReady(config, w.db, record) && forall i :: 0 <= i < |steps| ==> OwnStep(steps[i], record)
    ensures StaysReady(config, Run(config, w, steps).db, record)
    decreases |steps|
  {
    hide StaysReady, Next, OwnStep;
    if steps != [] {
      OwnStepStaysReady(config, w, steps[0], record);
      InterruptedIsReady(config, Next(config, w, steps[0]), steps[1..], record);
    }
  }

  // ----- from an empty database -----

  /** A note, its owner's membership, and the section the upload goes to. */
  function Setup(record: TransferRecord, note: Note): seq<Step> {
    var id := record.prepared.identity;
    [NoteStep(id.noteId, note),
     MemberStep(MemberKey(id.noteId, record.userId), Some(Membership(Owner, Active))),
     LogStep(HistoryMeaning.CreateSectionStep(ResumeUpload.Stored(record), id.noteId, id.keyEpoch))]
  }

  function SetUp(record: TransferRecord, note: Note): World {
    var id := record.prepared.identity;
    World(Db(map[id.noteId := note], map[MemberKey(id.noteId, record.userId) := Membership(Owner, Active)],
             Log(map[ResumeUpload.Stored(record) := Section(id.noteId, id.keyEpoch, 0, false)], map[]), map[], map[], map[], map[], map[]), map[])
  }

  /** What the upload needs of its note, its kind and the quota. */
  predicate Welcomed(record: TransferRecord, note: Note, quota: nat) {
    var id := record.prepared.identity;
    && !note.isDeleted && !note.rotationFenced && note.keyEpoch == id.keyEpoch && note.cryptoOwnerId == id.cryptoOwnerId
    && (id.kind.Checkpoint? ==> id.checkpointSequenceCutoff == Some(0))
    && record.prepared.totalCipherBytes <= quota
  }

  lemma SetupRuns(config: Config, record: TransferRecord, note: Note)
    ensures Run(config, NEW_DATABASE, Setup(record, note)) == SetUp(record, note)
  {
    var steps := Setup(record, note);
    var a := Next(config, NEW_DATABASE, steps[0]);
    var b := Next(config, a, steps[1]);
    assert Run(config, NEW_DATABASE, steps) == Run(config, a, steps[1..]);
    assert Run(config, a, steps[1..]) == Run(config, b, steps[1..][1..]);
    assert Run(config, b, steps[1..][1..]) == Next(config, b, steps[2]);
  }

  lemma SetUpIsReady(config: Config, record: TransferRecord, note: Note)
    requires WellPrepared(record, config.textHash) && Welcomed(record, note, config.quota)
    ensures StaysReady(config, SetUp(record, note).db, record)
  {
    hide WellPrepared;
  }

  lemma {:induction false} RunAppend(config: Config, w: World, a: seq<Step>, b: seq<Step>)
    ensures Run(config, w, a + b) == Run(config, Run(config, w, a), b)
    decreases |a|
  {
    hide Next;
    if a == [] {
      assert a + b == b;
    } else {
      assert (a + b)[1..] == a[1..] + b;
      RunAppend(config, Next(config, w, a[0]), a[1..], b);
    }
  }

  /** From an empty database, over every run of an upload's own requests and sweeps, it can be resumed. */
  lemma FirstUploadIsReady(config: Config, record: TransferRecord, note: Note, steps: seq<Step>)
    requires WellPrepared(record, config.textHash) && Welcomed(record, note, config.quota)
    requires forall i :: 0 <= i < |steps| ==> OwnStep(steps[i], record)
    ensures StaysReady(config, Run(config, NEW_DATABASE, Setup(record, note) + steps).db, record)
  {
    hide StaysReady, WellPrepared, OwnStep, Welcomed, Run;
    SetupRuns(config, record, note);
    SetUpIsReady(config, record, note);
    RunAppend(config, NEW_DATABASE, Setup(record, note), steps);
    InterruptedIsReady(config, SetUp(record, note), steps, record);
  }

  /** The state a resume does not get past is reached by one begin and waiting. */
  lemma BegunBecomesOverdue(config: Config, record: TransferRecord, note: Note, expiresAt: nat, now: nat)
    requires WellPrepared(record, config.textHash) && Welcomed(record, note, config.quota) && expiresAt <= now
    ensures var db := Run(config, NEW_DATABASE, Setup(record, note) + [BeginStep(true, record.userId, ResumeUpload.Payload(record, expiresAt))]).db;
      StaysReady(config, db, record) && Overdue(db, record, now)
  {
    hide StaysReady, WellPrepared, Run, Begun;
    var begin := BeginStep(true, record.userId, ResumeUpload.Payload(record, expiresAt));
    FirstUploadIsReady(config, record, note, [begin]);
    SetupRuns(config, record, note);
    RunAppend(config, NEW_DATABASE, Setup(record, note), [begin]);
    SetUpIsReady(config, record, note);
    var w := SetUp(record, note);
    assert Run(config, w, [begin]) == Next(config, w, begin) by { RunOne(config, w, begin); }
    BeginReceives(config, w.db, record, expiresAt);
  }

  lemma RunOne(config: Config, w: World, step: Step)
    ensures Run(config, w, [step]) == Next(config, w, step)
  {
    hide Next;
    assert [step][1..] == [];
  }

  lemma BeginReceives(config: Config, db: Db, record: TransferRecord, expiresAt: nat)
    requires StaysReady(config, db, record) && UploadIdOf(record) !in db.uploads
    ensures var next := Begun(db, true, record.userId, ResumeUpload.Payload(record, expiresAt), config.quota).0;
      StatusIs(next, UploadIdOf(record), Receiving) && next.uploads[UploadIdOf(record)].expiresAt == expiresAt
  {
    hide Begun, WellPrepared, Inv, OwnRows, Welcome, KeysFree, BegunInSection;
    SectionsEnsured(db, record.userId, record, config.quota);
    var access := AccessOf(db, record.prepared.identity.noteId, record.userId).value;
    BeginOpens(WithSections(db, record), access, record, config.quota, expiresAt, config.textHash);
  }

  // ----- a concrete upload -----

  const ZEROES: Bytes := [0, 0, 0, 0, 0, 0, 0, 0, 0, 0, 0, 0, 0, 0, 0, 0, 0, 0, 0, 0, 0, 0, 0, 0]

  /** One chunk of one byte, into the root section of note 1 of user 7. */
  function OneChunk(): TransferRecord {
    TransferRecord(7, 8,
                   ContentCodec.Prepared(ContentCodec.Identity(7, 1, Root, 1, 6, 5, Update, None), 1, 1, "hash",
                                         [ContentCodec.Chunk(0, [0], "", Base64.Encode(ZEROES))]), {}, {})
  }

  function AnyHash(): string -> string { (text: string) => "hash" }

  lemma OneChunkIsPrepared()
    ensures WellPrepared(OneChunk(), AnyHash())
  {
    var record := OneChunk();
    Base64.CanonicalIffEncoding(Base64.Encode(ZEROES), ZEROES);
    var chunks := record.prepared.chunks;
    assert chunks[..0] == [];
    assert ContentCodec.CipherTotal(chunks) == 1;
  }

  /** So there is a state that is ready and overdue, reached from an empty database. */
  lemma OverdueHappens() returns (config: Config, steps: seq<Step>, record: TransferRecord, now: nat)
    ensures var db := Run(config, NEW_DATABASE, steps).db;
      StaysReady(config, db, record) && Overdue(db, record, now)
  {
    hide StaysReady, WellPrepared, Run, Overdue;
    config, record, now := Config(100, AnyHash()), OneChunk(), 3;
    var note := Note(7, 7, 1, false, false);
    steps := Setup(record, note) + [BeginStep(true, record.userId, ResumeUpload.Payload(record, 2))];
    OneChunkIsPrepared();
    BegunBecomesOverdue(config, record, note, 2, now);
  }

  // ----- beside whatever else happens -----

  /** Others use their own identifiers and leave the note alone; requests for this upload are its client's. */
  predicate Respects(step: Step, record: TransferRecord) {
    var id := record.prepared.identity;
    match step
    case BeginStep(session, userId, input) =>
      if input.uploadId == id.uploadId then input == ResumeUpload.Payload(record, input.expiresAt) else input.updateId != id.updateId
    case ChunkStep(session, userId, uploadId, chunk) => uploadId == id.uploadId ==> OwnChunk(chunk, record)
    case CommitStep(session, userId, request) => request.requestId == record.requestId ==> request.uploadId == id.uploadId
    case DeleteNoteStep(noteId, userId) => noteId != id.noteId
    case LogStep(change) => change.PersistStep? ==> change.header.updateId != id.updateId
    case _ => true
  }

  /** What such steps keep: the upload and its rows are its own, and its keys are used by nobody else. */
  ghost predicate OwnUpload(db: Db, record: TransferRecord) {
    var id := record.prepared.identity;
    id.uploadId in db.uploads ==>
      && SameUpload(db.uploads[id.uploadId], ResumeUpload.Payload(record, 0), ResumeUpload.Stored(record))
      && OwnRows(ChunksOf(db.chunks, id.uploadId), record)
      && OwnSeal(db.notes, db.uploads[id.uploadId], record)
      && SectionOf(db.log, ResumeUpload.Stored(record), id.noteId)
  }

  /** What its content means, under the crypto owner of its note. */
  predicate OwnSeal(notes: map<Id, Note>, upload: Upload, record: TransferRecord) {
    var noteId := record.prepared.identity.noteId;
    upload.ops == record.ops && noteId in notes && upload.cryptoOwnerId == notes[noteId].cryptoOwnerId
  }

  ghost predicate NoteStays(before: map<Id, Note>, after: map<Id, Note>, noteId: Id) {
    noteId in before ==> noteId in after && after[noteId].cryptoOwnerId == before[noteId].cryptoOwnerId
  }

  ghost predicate OwnKeys(db: Db, record: TransferRecord) {
    var id := record.prepared.identity;
    && (forall other :: other in db.uploads && other != id.uploadId ==> db.uploads[other].updateId != id.updateId)
    && (record.requestId in db.manifests ==> db.manifests[record.requestId].uploadId == id.uploadId)
    && (id.updateId in db.log.updates ==> StatusIs(db, id.uploadId, Committed))
  }

  ghost predicate Kept(db: Db, record: TransferRecord) { OwnUpload(db, record) && OwnKeys(db, record) }

  /** Sections only grow and no other update takes the upload's place. */
  ghost predicate LogGrows(before: Log, after: Log, updateId: Id) {
    SectionsGrow(before.sections, after.sections) && (updateId in after.updates ==> updateId in before.updates)
  }

  lemma SameUploadsKept(db: Db, next: Db, record: TransferRecord)
    requires Kept(db, record) && next.uploads == db.uploads && next.chunks == db.chunks && next.manifests == db.manifests
    requires LogGrows(db.log, next.log, record.prepared.identity.updateId)
    requires NoteStays(db.notes, next.notes, record.prepared.identity.noteId)
    ensures Kept(next, record)
  {
    hide OwnRows, SameUpload;
  }

  /** One upload changes: another's, or this one in a way that keeps it its own. */
  lemma OneUploadKept(db: Db, next: Db, id: Id, upload: Upload, record: TransferRecord)
    requires Kept(db, record) && next.uploads == db.uploads[id := upload] && next.manifests == db.manifests && next.log == db.log
    requires next.notes == db.notes
    requires forall other :: other != id ==> ChunksOf(next.chunks, other) == ChunksOf(db.chunks, other)
    requires if id == UploadIdOf(record)
      then SameUpload(upload, ResumeUpload.Payload(record, 0), ResumeUpload.Stored(record)) && OwnRows(ChunksOf(next.chunks, id), record)
        && SectionOf(db.log, ResumeUpload.Stored(record), record.prepared.identity.noteId) && !StatusIs(db, id, Committed)
        && OwnSeal(db.notes, upload, record)
      else upload.updateId != record.prepared.identity.updateId
    ensures Kept(next, record)
  {
    hide OwnRows, SameUpload;
  }

  lemma WithoutChunks(chunks: map<Id, ChunkRows>, id: Id)
    ensures ChunksOf(chunks - {id}, id) == map[]
    ensures forall other :: other != id ==> ChunksOf(chunks - {id}, other) == ChunksOf(chunks, other)
  {
  }

  lemma BeginKept(db: Db, session: bool, userId: Id, input: BeginInput, quota: nat, record: TransferRecord)
    requires Kept(db, record) && Respects(BeginStep(session, userId, input), record)
    ensures Kept(Begun(db, session, userId, input, quota).0, record)
  {
    hide Begun, SameBalances, Kept, SectionsGrow, SectionOf, OwnRows, Reserve, SameUpload;
    var base, upload := BeginShape(db, session, userId, input, quota);
    SameUploadsKept(db, base, record);
    if upload.Some? {
      var next := Opened(base, base.notes[input.noteId].ownerUserId, input.uploadId, upload.value, quota).value;
      WithoutChunks(base.chunks, input.uploadId);
      NoRowsAreOwn(record);
      if input.uploadId == UploadIdOf(record) {
        BegunSeal(db, session, userId, input, quota, record);
        DeclaredAlike(upload.value, input, record);
      } else {
        AnothersUpdate(upload.value, input);
      }
      OneUploadKept(base, next, input.uploadId, upload.value, record);
    }
  }

  /** Begun or revived, the upload means what its request says, under its note's crypto owner. */
  lemma BegunSeal(db: Db, session: bool, userId: Id, input: BeginInput, quota: nat, record: TransferRecord)
    requires Kept(db, record) && input.uploadId == UploadIdOf(record) && input == ResumeUpload.Payload(record, input.expiresAt)
    requires UploadIdOf(record) in Begun(db, session, userId, input, quota).0.uploads
    ensures OwnSeal(db.notes, Begun(db, session, userId, input, quota).0.uploads[UploadIdOf(record)], record)
  {
    hide Begun, SameUpload, OwnRows, SectionOf, ContentTerms.BeginAnswer, ContentTerms.SaysSame, ContentTerms.Shifts, ContentTerms.CountersKept, OwnKeys;
    ContentTerms.BeginTerms(db, session, userId, input, quota);
  }

  lemma DeclaredAlike(upload: Upload, input: BeginInput, record: TransferRecord)
    requires SameUpload(upload, input, StorageSectionId(input.noteId, input.sectionId)) && input == ResumeUpload.Payload(record, input.expiresAt)
    ensures SameUpload(upload, ResumeUpload.Payload(record, 0), ResumeUpload.Stored(record))
  {
  }

  lemma AnothersUpdate(upload: Upload, input: BeginInput)
    requires SameUpload(upload, input, StorageSectionId(input.noteId, input.sectionId))
    ensures upload.updateId == input.updateId
  {
  }

  lemma NoRowsAreOwn(record: TransferRecord)
    ensures OwnRows(map[], record)
  {
  }

  lemma ChunkKept(db: Db, session: bool, userId: Id, uploadId: Id, chunk: StoredChunk, record: TransferRecord)
    requires Kept(db, record) && Respects(ChunkStep(session, userId, uploadId, chunk), record)
    ensures Kept(Registered(db, session, userId, uploadId, chunk).0, record)
  {
    hide Registered, StatusAfter, Kept, SectionOf, RowOf;
    var added := ChunkShape(db, session, userId, uploadId, chunk);
    if added {
      var next := Extended(db, uploadId, chunk);
      KeptParts(db, record);
      OneUploadKept(db, next, uploadId, next.uploads[uploadId], record);
    }
  }

  lemma KeptParts(db: Db, record: TransferRecord)
    requires Kept(db, record)
    ensures OwnUpload(db, record) && OwnKeys(db, record)
  {
  }

  lemma ClosingKept(config: Config, w: World, step: Step, record: TransferRecord)
    requires Kept(w.db, record) && ClosingStep(step)
    ensures Kept(Next(config, w, step).db, record)
  {
    hide Next, Kept, SectionOf, OwnRows, Release;
    var id, status := ClosingShape(config, w, step);
    if status.Some? {
      var next := Closed(w.db, w.db.notes[w.db.uploads[id].noteId].ownerUserId, id, status.value);
      KeptParts(w.db, record);
      WithoutChunks(w.db.chunks, id);
      NoRowsAreOwn(record);
      OneUploadKept(w.db, next, id, next.uploads[id], record);
    }
  }

  /** What a commit adds to the log; no note changes. */
  lemma WriteLog(db: Db, owner: Id, input: CommitInput, textHash: string -> string)
    requires input.uploadId in db.uploads && Write(db, owner, input, textHash).Written?
    ensures var next := Write(db, owner, input, textHash).db;
      && SectionsGrow(db.log.sections, next.log.sections)
      && (forall id :: id in next.log.updates ==> id in db.log.updates || id == db.uploads[input.uploadId].updateId)
      && next.notes == db.notes
  {
    hide NewManifest, RowsRefusal, KeyTaken, Compacted;
    var upload := db.uploads[input.uploadId];
    SectionAccepts(db.log, upload);
    AppendGrows(db.log, ManifestRow(upload, input.uploadId, input.requestId, db.log.sections[upload.sectionId].currentSequence + 1));
  }

  lemma AppendGrows(log: Log, row: Row)
    requires row.sectionId in log.sections
    ensures SectionsGrow(log.sections, Append(log, row).sections)
    ensures forall id :: id in Append(log, row).updates ==> id in log.updates || id == row.updateId
  {
  }

  lemma WriteKept(db: Db, owner: Id, input: CommitInput, textHash: string -> string, record: TransferRecord)
    requires Kept(db, record) && input.uploadId in db.uploads && Write(db, owner, input, textHash).Written?
    requires input.requestId == record.requestId ==> input.uploadId == UploadIdOf(record)
    ensures Kept(Write(db, owner, input, textHash).db, record)
  {
    hide Write, OwnRows;
    WriteShape(db, owner, input, textHash);
    WriteLog(db, owner, input, textHash);
  }

  lemma CommitKept(config: Config, db: Db, session: bool, userId: Id, request: CommitInput, record: TransferRecord)
    requires Kept(db, record) && Respects(CommitStep(session, userId, request), record)
    ensures Kept(CommitNext(config, db, session, userId, request), record)
  {
    hide Write, Kept, AccessOf;
    if CommitGate(db, session, userId, request).None? && !HasManifest(db.manifests, request.uploadId) {
      var owner := AccessOf(db, db.uploads[request.uploadId].noteId, userId).value.ownerUserId;
      if Write(db, owner, request, config.textHash).Written? {
        WriteKept(db, owner, request, config.textHash, record);
      }
    }
  }

  lemma DeleteKept(db: Db, noteId: Id, ownerUserId: Id, record: TransferRecord)
    requires Kept(db, record) && noteId != record.prepared.identity.noteId
    ensures Kept(NoteDeleted(db, noteId, ownerUserId), record)
  {
    hide OwnRows, MembersWithout, AttachmentsWithout, NoteAttachments, Lowered;
  }

  lemma LogKept(config: Config, w: World, step: Step, record: TransferRecord)
    requires Kept(w.db, record) && Respects(step, record) && step.LogStep? && !step.change.CommitStep?
    ensures Kept(Next(config, w, step).db, record)
  {
    hide Kept, HistoryMeaning.Apply;
    LogChanges(w.db.log, step.change, record.prepared.identity.updateId);
    SameUploadsKept(w.db, Next(config, w, step).db, record);
  }

  lemma LogChanges(log: Log, change: HistoryMeaning.Step, updateId: Id)
    requires !change.CommitStep? && (change.PersistStep? ==> change.header.updateId != updateId)
    ensures LogGrows(log, HistoryMeaning.Apply(HistoryMeaning.History(log, []), change).log, updateId)
  {
    hide Append, SectionsGrow, EnsuredSections;
    match change
    case PersistStep(session, access, header, payload) => PersistGrows(log, session, access, header, payload, updateId);
    case EnsureStep(noteId, sectionId, epoch) => EnsuringAdds(log, noteId, sectionId, epoch);
    case CreateSectionStep(stored, noteId, epoch) =>
      SectionsStay(log.sections);
      CreatingAdds(log.sections, stored, Section(noteId, epoch, 0, false));
    case DeleteSectionStep(stored) =>
      SectionsStay(log.sections);
      MarkingKeeps(log.sections, stored);
    case CommitStep(_) =>
  }

  lemma CreatingAdds(sections: map<Id, Section>, stored: Id, section: Section)
    ensures stored !in sections ==> SectionsGrow(sections, sections[stored := section])
  {
  }

  lemma MarkingKeeps(sections: map<Id, Section>, stored: Id)
    ensures stored in sections ==> SectionsGrow(sections, sections[stored := sections[stored].(isDeleted := true)])
  {
  }

  lemma PersistGrows(log: Log, session: bool, access: Option<Access>, header: Header, payload: Payload, updateId: Id)
    requires header.updateId != updateId
    ensures LogGrows(log, Persisted(log, session, access, header, payload).0, updateId)
  {
    hide Append, EnsuredSections, SectionsGrow, CutoffRefused, Usable;
    SectionsStay(log.sections);
    if SectionHistory.Gate(session, access, header).None? {
      var stored := StorageSectionId(header.noteId, header.sectionId);
      var ensured := log.(sections := EnsuredSections(log, header.noteId, header.sectionId, access.value.keyEpoch));
      EnsuringAdds(log, header.noteId, header.sectionId, access.value.keyEpoch);
      if Usable(ensured.sections, stored, header.noteId, access.value.keyEpoch) {
        UsableIsThere(ensured, stored, header.noteId, access.value.keyEpoch);
        AppendGrows(ensured, InlineRow(header, payload, ensured.sections[stored].currentSequence + 1));
        GrowsFurther(log.sections, ensured.sections, Append(ensured, InlineRow(header, payload, ensured.sections[stored].currentSequence + 1)).sections);
      }
    }
  }

  lemma GrowsFurther(a: map<Id, Section>, b: map<Id, Section>, c: map<Id, Section>)
    requires SectionsGrow(a, b) && SectionsGrow(b, c)
    ensures SectionsGrow(a, c)
  {
  }

  lemma OtherStepKept(config: Config, w: World, step: Step, record: TransferRecord)
    requires Kept(w.db, record) && Enabled(w, step) && !UploadStep(step) && !step.LogStep?
    ensures Kept(Next(config, w, step).db, record)
  {
    hide Kept, Next;
    OtherStepsKeep(config, w, step);
    SameLog(config, w, step);
    NotesStay(config, w, step, record.prepared.identity.noteId);
    SectionsStay(w.db.log.sections);
    SameUploadsKept(w.db, Next(config, w, step).db, record);
  }

  lemma NotesStay(config: Config, w: World, step: Step, noteId: Id)
    requires Enabled(w, step) && !UploadStep(step) && !step.LogStep?
    ensures NoteStays(w.db.notes, Next(config, w, step).db.notes, noteId)
  {
    hide AttachmentGate, Reserve, AccessOf, Recomputed, Balance, Lowered, Release;
  }

  lemma StepKept(config: Config, w: World, step: Step, record: TransferRecord)
    requires Kept(w.db, record) && Enabled(w, step) && Respects(step, record)
    ensures Kept(Next(config, w, step).db, record)
  {
    hide Kept, Begun, StatusRead, Registered, AbortedBy, CommitNext, NoteDeleted, ExpireOne;
    match step
    case BeginStep(session, userId, input) => BeginKept(w.db, session, userId, input, config.quota, record);
    case ChunkStep(session, userId, uploadId, chunk) => ChunkKept(w.db, session, userId, uploadId, chunk, record);
    case CommitStep(session, userId, request) => CommitKept(config, w.db, session, userId, request, record);
    case DeleteNoteStep(noteId, userId) => DeleteKept(w.db, noteId, userId, record);
    case LogStep(change) => LogKept(config, w, step, record);
    case _ =>
      if ClosingStep(step) {
        ClosingKept(config, w, step, record);
      } else {
        OtherStepKept(config, w, step, record);
      }
  }

  lemma {:induction false} RunKept(config: Config, w: World, steps: seq<Step>, record: TransferRecord)
    requires LedgerInv(config, w) && Kept(w.db, record) && QuietRun(config, w, steps)
    requires forall i :: 0 <= i < |steps| ==> Respects(steps[i], record)
    ensures LedgerInv(config, Run(config, w, steps)) && Kept(Run(config, w, steps).db, record)
    decreases |steps|
  {
    hide LedgerInv, Kept, Next, Respects, Enabled, Quiet;
    if steps != [] {
      StepKeepsLedger(config, w, steps[0]);
      StepKept(config, w, steps[0], record);
      RunKept(config, Next(config, w, steps[0]), steps[1..], record);
    }
  }

  // ----- what that means for a resume -----

  lemma NamedIsCommitted(db: Db, m: Id)
    requires Inv(db) && m in db.manifests
    ensures StatusIs(db, db.manifests[m].uploadId, Committed)
    ensures db.manifests[m].updateId == db.uploads[db.manifests[m].uploadId].updateId
  {
    hide UploadsOk;
    assert HasManifest(db.manifests, db.manifests[m].uploadId);
  }

  lemma KeptIsLeftBehind(db: Db, record: TransferRecord)
    requires Inv(db) && Kept(db, record) && Welcome(db, record.userId, record)
    ensures LeftBehind(db, record)
    ensures !StatusIs(db, UploadIdOf(record), Committed) ==> KeysFree(db, record)
  {
    hide UploadsOk, OwnRows, SameUpload, EnsuredSections, Usable;
    var id := record.prepared.identity;
    if !StatusIs(db, id.uploadId, Committed) {
      if record.requestId in db.manifests {
        NamedIsCommitted(db, record.requestId);
      }
      forall m | m in db.manifests ensures db.manifests[m].updateId != id.updateId {
        NamedIsCommitted(db, m);
      }
    }
    if id.uploadId in db.uploads {
      assert SameUpload(db.uploads[id.uploadId], ResumeUpload.Payload(record, 0), ResumeUpload.Stored(record));
    }
  }

  /** The bytes are reserved or used, or they still fit. */
  predicate HasRoom(db: Db, record: TransferRecord, quota: nat) {
    var id := record.prepared.identity;
    || (id.uploadId in db.uploads && (Reserves(db.uploads[id.uploadId].status) || db.uploads[id.uploadId].status.Committed?))
    || (id.noteId in db.notes && Fits(Balance(db.accounts, db.notes[id.noteId].ownerUserId), record.prepared.totalCipherBytes, quota))
  }

  lemma RoomIff(config: Config, w: World, record: TransferRecord)
    requires LedgerInv(config, w) && Kept(w.db, record) && record.prepared.identity.noteId in w.db.notes
    ensures Room(w.db, w.db.notes[record.prepared.identity.noteId].ownerUserId, record, config.quota)
      <==> HasRoom(w.db, record, config.quota)
  {
    hide Inv, Linked, Funded, Covered, WithinQuota, OwnRows, OwnKeys, SectionOf;
    var id := UploadIdOf(record);
    if id in w.db.uploads && Reserves(w.db.uploads[id].status) {
      CommitNeverOverQuota(config, w, id);
    }
  }

  /**
   Beside whatever other clients, jobs and attachments do, as long as they use their own
   identifiers and spare the note: an upload can be resumed if and only if its client still has
   the access it prepared for and its bytes are reserved, used, or fit.
   */
  lemma ReadyIff(config: Config, steps: seq<Step>, record: TransferRecord)
    requires QuietRun(config, NEW_DATABASE, steps) && forall i :: 0 <= i < |steps| ==> Respects(steps[i], record)
    requires WellPrepared(record, config.textHash)
    ensures var db := Run(config, NEW_DATABASE, steps).db;
      && (Ready(db, record, config.quota, config.textHash) <==> Welcome(db, record.userId, record) && HasRoom(db, record, config.quota))
      && QuotaKept(db, record, config.quota)
  {
    hide Run, QuietRun, WellPrepared, Respects, Kept, Inv, Linked, Funded, Covered, Room, HasRoom, LeftBehind, KeysFree, EnsuredSections, Usable;
    NewDatabaseIsExact(config);
    NothingIsKept(record);
    RunKept(config, NEW_DATABASE, steps, record);
    var w := Run(config, NEW_DATABASE, steps);
    if Welcome(w.db, record.userId, record) {
      KeptIsLeftBehind(w.db, record);
      RoomIff(config, w, record);
    }
    QuotaIsKept(config, w, record);
  }

  lemma NothingIsKept(record: TransferRecord)
    ensures Kept(NEW_DATABASE.db, record)
  {
  }

  lemma QuotaIsKept(config: Config, w: World, record: TransferRecord)
    requires WithinQuota(config, w)
    ensures QuotaKept(w.db, record, config.quota)
  {
    var noteId := record.prepared.identity.noteId;
    if noteId in w.db.notes && w.db.notes[noteId].ownerUserId in w.db.accounts {
      assert Balance(w.db.accounts, w.db.notes[noteId].ownerUserId) == w.db.accounts[w.db.notes[noteId].ownerUserId];
    }
  }
}
