/**
 What readers get of committed content: over every run the log names each manifest by exactly what
 its upload declared, and its chunk rows stay there and hash to what it says.
 */
module ContentReading {
  import opened Basics
  import opened SectionHistory
  import opened ManifestText
  import opened VerifiedContent
  import opened ContentStore
  import opened ContentRepositories
  import opened AttachmentRepository
  import opened UploadLifecycle
  import opened ContentTerms
  import opened HistoryPages
  import HistoryReader
  import HistoryDelivery
  import HistoryMeaning

  // ----- the rows name their manifests -----

  /** The manifest is there, its upload is there, and row, manifest and upload say the same of the content. */
  predicate NamesItsManifest(db: Db, row: Row) {
    row.manifestId.Some? ==>
      && row.manifestId.value in db.manifests
      && var m := db.manifests[row.manifestId.value];
      && m.uploadId in db.uploads && ManifestSays(m, m.uploadId, db.uploads[m.uploadId])
      && RowNames(row, row.manifestId.value, m, db.uploads[m.uploadId])
  }

  ghost predicate RowsNamed(db: Db) {
    forall id :: id in db.log.updates ==> db.log.updates[id].updateId == id && NamesItsManifest(db, db.log.updates[id])
  }

  /** No manifest is gone or changed, and no upload is gone or declares anything else. */
  ghost predicate NothingLost(before: Db, after: Db) {
    && (forall m :: m in before.manifests ==> m in after.manifests && after.manifests[m] == before.manifests[m])
    && (forall id :: id in before.uploads ==> id in after.uploads && SameDeclaration(before.uploads[id], after.uploads[id]))
  }

  /** Rows stay as they are, or are new and inline. */
  ghost predicate OnlyInlineAdded(before: Log, after: Log) {
    forall id :: id in after.updates ==>
      || (id in before.updates && after.updates[id] == before.updates[id])
      || (after.updates[id].updateId == id && after.updates[id].manifestId == None)
  }

  lemma StillNamed(before: Db, after: Db, row: Row)
    requires NamesItsManifest(before, row) && NothingLost(before, after)
    ensures NamesItsManifest(after, row)
  {
  }

  lemma RowsStayNamed(before: Db, after: Db)
    requires RowsNamed(before) && NothingLost(before, after) && OnlyInlineAdded(before.log, after.log)
    ensures RowsNamed(after)
  {
    hide NamesItsManifest, NothingLost;
    forall id | id in after.log.updates ensures after.log.updates[id].updateId == id && NamesItsManifest(after, after.log.updates[id]) {
      if id in before.log.updates && after.log.updates[id] == before.log.updates[id] {
        StillNamed(before, after, before.log.updates[id]);
      } else {
        InlineNamesNothing(after, after.log.updates[id]);
      }
    }
  }

  lemma InlineNamesNothing(db: Db, row: Row)
    requires row.manifestId == None
    ensures NamesItsManifest(db, row)
  {
  }

  lemma StepLosesNothing(config: Config, w: World, step: Step)
    requires Inv(w.db) && !step.DeleteNoteStep?
    ensures NothingLost(w.db, Next(config, w, step).db)
  {
    hide Inv, Next, SameDeclaration;
    var next := Next(config, w, step).db;
    forall m | m in w.db.manifests ensures m in next.manifests && next.manifests[m] == w.db.manifests[m] {
      ManifestPersists(config, w, step, m);
    }
    forall id | id in w.db.uploads ensures id in next.uploads && SameDeclaration(w.db.uploads[id], next.uploads[id]) {
      UploadPersists(config, w, step, id);
    }
  }

  /** A begin leaves the log's rows and the chunks of every other upload as they are. */
  lemma BeginTouches(config: Config, db: Db, session: bool, userId: Id, input: BeginInput)
    ensures var next := Begun(db, session, userId, input, config.quota).0;
      && next.log.updates == db.log.updates && next.manifests == db.manifests
      && (next.chunks == db.chunks
          || (next.chunks == db.chunks - {input.uploadId}
              && (input.uploadId in db.uploads ==> !db.uploads[input.uploadId].status.Committed?)))
  {
    hide Begun, SameBalances, SameDeclaration, SameUpload, SectionsGrow, SectionOf, Reserve;
    var base, upload := BeginShape(db, session, userId, input, config.quota);
  }

  /** Of all steps but commits and note deletions only the log's own may touch the log's rows, and those add inline rows. */
  lemma LogOfStep(config: Config, w: World, step: Step)
    requires Enabled(w, step) && !step.CommitStep? && !step.DeleteNoteStep?
    ensures OnlyInlineAdded(w.db.log, Next(config, w, step).db.log)
  {
    hide Begun, Registered, StatusRead, AbortedBy, ExpireOne, HistoryMeaning.Apply;
    match step
    case BeginStep(session, userId, input) => BeginTouches(config, w.db, session, userId, input);
    case ChunkStep(session, userId, uploadId, chunk) => var added := ChunkShape(w.db, session, userId, uploadId, chunk);
    case LogStep(change) => OwnStepAddsInline(w.db.log, change);
    case _ =>
      if ClosingStep(step) {
        var id, status := ClosingShape(config, w, step);
      } else {
        SameLog(config, w, step);
      }
  }

  lemma OwnStepAddsInline(log: Log, change: HistoryMeaning.Step)
    requires !change.CommitStep?
    ensures OnlyInlineAdded(log, HistoryMeaning.Apply(HistoryMeaning.History(log, []), change).log)
  {
    hide Persisted, PersistAnswer;
    if change.PersistStep? {
      PersistedInserts(log, change.session, change.access, change.header, change.payload);
    }
  }

  lemma WriteNames(db: Db, owner: Id, input: CommitInput, textHash: string -> string)
    requires RowsNamed(db) && input.uploadId in db.uploads && Write(db, owner, input, textHash).Written?
    ensures RowsNamed(Write(db, owner, input, textHash).db)
  {
    hide Write, TakenAlong, NamesItsManifest, ManifestSays, RowNames;
    WriteLeaves(db, owner, input, textHash);
    var written := Write(db, owner, input, textHash);
    var after, m := written.db, written.manifest;
    OthersLost(db, after, owner, input.uploadId, input.requestId, m);
    forall id | id in after.log.updates ensures after.log.updates[id].updateId == id && NamesItsManifest(after, after.log.updates[id]) {
      if id == m.updateId {
        WrittenRowNames(after, after.log.updates[id], input.requestId, db.uploads[input.uploadId]);
      } else {
        StillNamed(db, after, db.log.updates[id]);
      }
    }
  }

  lemma OthersLost(before: Db, after: Db, owner: Id, uploadId: Id, manifestId: Id, m: Manifest)
    requires CommitLeaves(before, after, owner, uploadId, manifestId, m)
    ensures NothingLost(before, after)
    ensures manifestId in after.manifests && after.manifests[manifestId] == m && m.uploadId == uploadId
    ensures after.uploads[uploadId] == before.uploads[uploadId].(status := Committed)
    ensures ManifestSays(m, uploadId, before.uploads[uploadId])
  {
  }

  lemma WrittenRowNames(db: Db, row: Row, manifestId: Id, upload: Upload)
    requires manifestId in db.manifests && db.manifests[manifestId].uploadId in db.uploads
    requires db.uploads[db.manifests[manifestId].uploadId] == upload.(status := Committed)
    requires ManifestSays(db.manifests[manifestId], db.manifests[manifestId].uploadId, upload)
    requires RowNames(row, manifestId, db.manifests[manifestId], upload)
    ensures row.updateId == db.manifests[manifestId].updateId && NamesItsManifest(db, row)
  {
  }

  lemma CommitNames(config: Config, db: Db, session: bool, userId: Id, request: CommitInput)
    requires RowsNamed(db)
    ensures RowsNamed(CommitNext(config, db, session, userId, request))
  {
    hide RowsNamed, Write, AccessOf;
    if CommitGate(db, session, userId, request).None? && !HasManifest(db.manifests, request.uploadId) {
      var owner := AccessOf(db, db.uploads[request.uploadId].noteId, userId).value.ownerUserId;
      if Write(db, owner, request, config.textHash).Written? {
        WriteNames(db, owner, request, config.textHash);
      }
    }
  }

  /** A note takes its rows, manifests and uploads along together. */
  lemma DeleteNames(db: Db, noteId: Id, ownerUserId: Id)
    requires RowsNamed(db)
    ensures RowsNamed(NoteDeleted(db, noteId, ownerUserId))
  {
    hide MembersWithout, AttachmentsWithout, ChunksWithout, NoteAttachments, Lowered;
  }

  lemma StepKeepsNames(config: Config, w: World, step: Step)
    requires Inv(w.db) && RowsNamed(w.db) && Enabled(w, step)
    ensures RowsNamed(Next(config, w, step).db)
  {
    hide Inv, RowsNamed, NothingLost, OnlyInlineAdded, CommitNext, NoteDeleted, Begun, StatusRead, Registered, AbortedBy, ExpireOne, Enabled;
    match step
    case CommitStep(session, userId, request) => CommitNames(config, w.db, session, userId, request);
    case DeleteNoteStep(noteId, userId) => DeleteNames(w.db, noteId, userId);
    case _ =>
      hide Next;
      StepLosesNothing(config, w, step);
      LogOfStep(config, w, step);
      RowsStayNamed(w.db, Next(config, w, step).db);
  }

  // ----- the manifests' chunks are there and hash to what they say -----

  /** Chunks 0 to chunkCount - 1, of the declared bytes, hashing to the declared hash. */
  ghost predicate Serves(db: Db, m: Manifest, textHash: string -> string) {
    var rows := ChunksOf(db.chunks, m.uploadId);
    && Contiguous(rows, m.chunkCount) && ReceivedBytes(rows) == m.totalCipherBytes
    && textHash(Lines(StoredDescriptors(OrderedRows(rows, m.chunkCount)))) == m.manifestHash
  }

  ghost predicate AllServe(db: Db, textHash: string -> string) {
    forall id :: id in db.manifests ==> Serves(db, db.manifests[id], textHash)
  }

  /** The chunks of committed uploads stay as they are. */
  ghost predicate CommittedChunksStay(before: Db, after: Db) {
    forall id :: id in before.uploads && before.uploads[id].status.Committed? ==> ChunksOf(after.chunks, id) == ChunksOf(before.chunks, id)
  }

  lemma OthersChunksStay(before: Db, after: Db, id: Id)
    requires after.chunks - {id} == before.chunks - {id}
    requires id in before.uploads ==> !before.uploads[id].status.Committed?
    ensures CommittedChunksStay(before, after)
  {
    forall other | other in before.uploads && before.uploads[other].status.Committed?
      ensures ChunksOf(after.chunks, other) == ChunksOf(before.chunks, other)
    {
      assert ChunksOf(after.chunks, other) == ChunksOf(after.chunks - {id}, other);
    }
  }

  lemma ClosingTouches(config: Config, w: World, step: Step)
    requires ClosingStep(step)
    ensures CommittedChunksStay(w.db, Next(config, w, step).db)
    ensures Next(config, w, step).db.manifests == w.db.manifests
  {
    hide Next, Release, CommittedChunksStay;
    var id, status := ClosingShape(config, w, step);
    SameChunksStay(w.db, Next(config, w, step).db);
    if status.Some? {
      OthersChunksStay(w.db, Next(config, w, step).db, id);
    }
  }

  lemma ChunkTouches(db: Db, session: bool, userId: Id, uploadId: Id, chunk: StoredChunk)
    ensures CommittedChunksStay(db, Registered(db, session, userId, uploadId, chunk).0)
    ensures Registered(db, session, userId, uploadId, chunk).0.manifests == db.manifests
  {
    hide Registered, StatusAfter, CommittedChunksStay;
    var added := ChunkShape(db, session, userId, uploadId, chunk);
    SameChunksStay(db, Registered(db, session, userId, uploadId, chunk).0);
    if added {
      OthersChunksStay(db, Extended(db, uploadId, chunk), uploadId);
    }
  }

  lemma ChunksOfStep(config: Config, w: World, step: Step)
    requires !step.CommitStep? && !step.DeleteNoteStep?
    ensures CommittedChunksStay(w.db, Next(config, w, step).db)
    ensures Next(config, w, step).db.manifests == w.db.manifests
  {
    hide Begun, Registered, StatusRead, AbortedBy, ExpireOne, CommittedChunksStay;
    match step
    case BeginStep(session, userId, input) =>
      BeginTouches(config, w.db, session, userId, input);
      BegunChunksStay(w.db, Begun(w.db, session, userId, input, config.quota).0, input.uploadId);
    case ChunkStep(session, userId, uploadId, chunk) => ChunkTouches(w.db, session, userId, uploadId, chunk);
    case _ =>
      hide Next;
      if ClosingStep(step) {
        ClosingTouches(config, w, step);
      } else {
        OtherStepsKeep(config, w, step);
        SameChunksStay(w.db, Next(config, w, step).db);
      }
  }

  lemma BegunChunksStay(before: Db, after: Db, id: Id)
    requires after.chunks == before.chunks
      || (after.chunks == before.chunks - {id} && (id in before.uploads ==> !before.uploads[id].status.Committed?))
    ensures CommittedChunksStay(before, after)
  {
  }

  lemma SameChunksStay(before: Db, after: Db)
    ensures after.chunks == before.chunks ==> CommittedChunksStay(before, after)
  {
  }

  lemma StillServes(before: Db, after: Db, m: Manifest, textHash: string -> string)
    requires Serves(before, m, textHash) && ChunksOf(after.chunks, m.uploadId) == ChunksOf(before.chunks, m.uploadId)
    ensures Serves(after, m, textHash)
  {
  }

  lemma ManifestIsCommitted(db: Db, id: Id)
    requires Inv(db) && id in db.manifests
    ensures db.manifests[id].uploadId in db.uploads && db.uploads[db.manifests[id].uploadId].status.Committed?
    ensures ManifestSays(db.manifests[id], db.manifests[id].uploadId, db.uploads[db.manifests[id].uploadId])
  {
    hide UploadsOk;
    assert HasManifest(db.manifests, db.manifests[id].uploadId);
  }

  lemma SameManifestsServe(before: Db, after: Db, textHash: string -> string)
    requires Inv(before) && AllServe(before, textHash) && CommittedChunksStay(before, after)
    requires after.manifests == before.manifests
    ensures AllServe(after, textHash)
  {
    hide Inv, Serves;
    forall id | id in after.manifests ensures Serves(after, after.manifests[id], textHash) {
      ManifestIsCommitted(before, id);
      StillServes(before, after, before.manifests[id], textHash);
    }
  }

  lemma WriteServes(db: Db, owner: Id, input: CommitInput, textHash: string -> string)
    requires AllServe(db, textHash) && input.uploadId in db.uploads && Write(db, owner, input, textHash).Written?
    ensures AllServe(Write(db, owner, input, textHash).db, textHash)
  {
    hide Write, TakenAlong, Serves, RowNames, ContentIsThere, SectionIsThere, NamesAreFree;
    WriteLeaves(db, owner, input, textHash);
    WrittenIff(db, owner, input, textHash);
    var written := Write(db, owner, input, textHash);
    NewManifestServes(written.db, db.uploads[input.uploadId], written.manifest, textHash);
    forall id | id in written.db.manifests ensures Serves(written.db, written.db.manifests[id], textHash) {
      if id != input.requestId {
        StillServes(db, written.db, db.manifests[id], textHash);
      }
    }
  }

  lemma NewManifestServes(db: Db, upload: Upload, m: Manifest, textHash: string -> string)
    requires ContentIsThere(upload, RowsNow(db, m.uploadId), textHash) && ManifestSays(m, m.uploadId, upload)
    ensures Serves(db, m, textHash)
  {
    hide Lines, StoredDescriptors, Totals.Total;
    var rows := RowsNow(db, m.uploadId);
    assert OrderedRows(rows, upload.chunkCount) == seq(upload.chunkCount, i requires 0 <= i < upload.chunkCount => rows[i]);
  }

  lemma CommitServes(config: Config, db: Db, session: bool, userId: Id, request: CommitInput)
    requires AllServe(db, config.textHash)
    ensures AllServe(CommitNext(config, db, session, userId, request), config.textHash)
  {
    hide AllServe, Write, AccessOf;
    if CommitGate(db, session, userId, request).None? && !HasManifest(db.manifests, request.uploadId) {
      var owner := AccessOf(db, db.uploads[request.uploadId].noteId, userId).value.ownerUserId;
      if Write(db, owner, request, config.textHash).Written? {
        WriteServes(db, owner, request, config.textHash);
      }
    }
  }

  lemma DeleteServes(db: Db, noteId: Id, ownerUserId: Id, textHash: string -> string)
    requires Inv(db) && AllServe(db, textHash)
    ensures AllServe(NoteDeleted(db, noteId, ownerUserId), textHash)
  {
    hide Inv, Serves, MembersWithout, AttachmentsWithout, LogWithout, NoteAttachments, Lowered;
    var next := NoteDeleted(db, noteId, ownerUserId);
    forall id | id in next.manifests ensures Serves(next, next.manifests[id], textHash) {
      ManifestIsCommitted(db, id);
      StillServes(db, next, db.manifests[id], textHash);
    }
  }

  lemma StepKeepsServing(config: Config, w: World, step: Step)
    requires Inv(w.db) && AllServe(w.db, config.textHash)
    ensures AllServe(Next(config, w, step).db, config.textHash)
  {
    hide Inv, AllServe, CommitNext, NoteDeleted, Begun, StatusRead, Registered, AbortedBy, ExpireOne, CommittedChunksStay;
    match step
    case CommitStep(session, userId, request) => CommitServes(config, w.db, session, userId, request);
    case DeleteNoteStep(noteId, userId) => DeleteServes(w.db, noteId, userId, config.textHash);
    case _ =>
      hide Next;
      ChunksOfStep(config, w, step);
      SameManifestsServe(w.db, Next(config, w, step).db, config.textHash);
  }

  // ----- over runs -----

  ghost predicate Readable(config: Config, db: Db) { Inv(db) && RowsNamed(db) && AllServe(db, config.textHash) }

  lemma {:induction false} RunStaysReadable(config: Config, w: World, steps: seq<Step>)
    requires Readable(config, w.db) && EnabledRun(config, w, steps)
    ensures Readable(config, Run(config, w, steps).db)
    decreases |steps|
  {
    hide Inv, RowsNamed, AllServe, Next, Enabled;
    if steps != [] {
      StepKeepsInv(config, w, steps[0]);
      StepKeepsNames(config, w, steps[0]);
      StepKeepsServing(config, w, steps[0]);
      RunStaysReadable(config, Next(config, w, steps[0]), steps[1..]);
    }
  }

  /** The entry of a manifest: what it says, under the crypto owner and meaning of its upload. */
  predicate EntryOf(entry: Entry, manifestId: Id, m: Manifest, upload: Upload) {
    entry == ManifestEntry(
      EntryBase(m.updateId, m.firstSequence, upload.cryptoOwnerId, m.keyEpoch, m.kind, m.checkpointSequenceCutoff, upload.ops),
      manifestId, m.uploadId, m.totalCipherBytes, m.chunkCount, m.manifestHash)
  }

  /**
   Over every run, any manifest entry on any page is of the page's scope and says exactly what one
   committed manifest says, whose chunks are all there and hash to the hash the entry names.
   */
  lemma EntriesNameManifests(config: Config, steps: seq<Step>, scope: HistoryReader.Scope, after: nat, maxItems: nat, maxBytes: nat, page: Page, i: nat)
    requires EnabledRun(config, NEW_DATABASE, steps)
    requires HistoryReader.PageOf(Run(config, NEW_DATABASE, steps).db.log, scope, after, maxItems, maxBytes, page)
    requires i < |page.entries| && page.entries[i].ManifestEntry?
    ensures var db, entry := Run(config, NEW_DATABASE, steps).db, page.entries[i];
      && entry.manifestId in db.manifests
      && var m := db.manifests[entry.manifestId];
      && m.uploadId in db.uploads && db.uploads[m.uploadId].status.Committed?
      && m.noteId == scope.noteId && m.sectionId == scope.sectionId && m.keyEpoch == scope.epoch
      && ManifestSays(m, m.uploadId, db.uploads[m.uploadId])
      && EntryOf(entry, entry.manifestId, m, db.uploads[m.uploadId])
      && Serves(db, m, config.textHash)
  {
    hide Inv, RowsNamed, AllServe, EnabledRun, Run, Serves;
    NothingToRead(config);
    RunStaysReadable(config, NEW_DATABASE, steps);
    EntryNamesManifest(config, Run(config, NEW_DATABASE, steps).db, scope, after, maxItems, maxBytes, page, i);
  }

  lemma NothingToRead(config: Config)
    ensures Readable(config, NEW_DATABASE.db)
  {
  }

  lemma EntryNamesManifest(config: Config, db: Db, scope: HistoryReader.Scope, after: nat, maxItems: nat, maxBytes: nat, page: Page, i: nat)
    requires Readable(config, db) && HistoryReader.PageOf(db.log, scope, after, maxItems, maxBytes, page)
    requires i < |page.entries| && page.entries[i].ManifestEntry?
    ensures var entry := page.entries[i];
      && entry.manifestId in db.manifests
      && var m := db.manifests[entry.manifestId];
      && m.uploadId in db.uploads && db.uploads[m.uploadId].status.Committed?
      && m.noteId == scope.noteId && m.sectionId == scope.sectionId && m.keyEpoch == scope.epoch
      && ManifestSays(m, m.uploadId, db.uploads[m.uploadId])
      && EntryOf(entry, entry.manifestId, m, db.uploads[m.uploadId])
      && Serves(db, m, config.textHash)
  {
    hide Inv, Serves, PageBytes;
    var rows: seq<Row> :| HistoryReader.IsSelection(db.log, scope, after, maxItems + 1, rows) && IsPage(rows, after, maxItems, maxBytes, page);
    assert Represents(page.entries[i], rows[i]) && HistoryReader.Wanted(rows[i], scope, after);
    assert NamesItsManifest(db, db.log.updates[rows[i].updateId]);
    ManifestIsCommitted(db, page.entries[i].manifestId);
  }

  // ----- right after a commit -----

  /**
   The page above the sequence before a commit's starts with an entry that says exactly what the
   manifest says that the commit answered.
   */
  lemma CommittedIsFirstOnItsPage(db: Db, session: bool, userId: Id, input: CommitInput, textHash: string -> string, next: Db,
      outcome: CommitOutcome, maxItems: nat, maxBytes: nat, page: Page)
    requires CommitResult(db, session, userId, input, textHash, next, outcome) && outcome.CommittedAs?
    requires !HasBeenCommitted(db, input.uploadId) && 0 < maxItems && 0 < outcome.manifest.firstSequence
    requires HistoryReader.PageOf(next.log, HistoryReader.Scope(outcome.manifest.noteId, outcome.manifest.sectionId, outcome.manifest.keyEpoch),
                    outcome.manifest.firstSequence - 1, maxItems, maxBytes, page)
    ensures page.entries != [] && EntryOf(page.entries[0], outcome.manifestId, outcome.manifest, db.uploads[input.uploadId])
    ensures ManifestSays(outcome.manifest, input.uploadId, db.uploads[input.uploadId])
  {
    hide CommitResult, HistoryReader.PageOf, MayCommit, MayWriteManifest, TakenAlong;
    CommitTermsHold(db, session, userId, input, textHash, next, outcome);
    var m := outcome.manifest;
    HistoryDelivery.NextRowIsFirstEntry(next.log, HistoryReader.Scope(m.noteId, m.sectionId, m.keyEpoch), m.firstSequence - 1, maxItems, maxBytes, page, m.updateId);
  }
}
