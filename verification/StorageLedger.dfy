/**
 Storage conservation: the counters of a storage account against the rows they stand for,
 over every run of uploads, commits, sweeps, attachments, deletions and reconciliations.
 */
module StorageLedger {
  import opened Basics
  import opened Totals
  import opened SectionHistory
  import opened VerifiedContent
  import opened ContentStore
  import opened ContentRepositories
  import opened AttachmentRepository
  import opened UploadLifecycle
  import HistoryMeaning

  function HoldWeight(hold: Hold, userId: Id): nat { if hold.ownerUserId == userId then hold.size else 0 }

  function HoldWeights(holds: map<Id, Hold>, userId: Id): map<Id, nat> {
    map id | id in holds :: HoldWeight(holds[id], userId)
  }

  ghost function UploadBytes(db: Db, userId: Id): nat { Total(UploadWeights(db.notes, db.uploads, userId)) }

  ghost function ManifestBytes(db: Db, userId: Id): nat { Total(ManifestWeights(db.notes, db.manifests, userId)) }

  ghost function AttachmentBytes(db: Db, userId: Id): nat { Total(AttachmentWeights(db.notes, db.attachments, userId)) }

  /** Bytes of attachment requests that have reserved and not ended. */
  ghost function InFlight(w: World, userId: Id): nat { Total(HoldWeights(w.holds, userId)) }

  /** How much the counters exceed the rows. */
  ghost function ReservedSlack(w: World, userId: Id): int {
    Balance(w.db.accounts, userId).reserved - UploadBytes(w.db, userId) - InFlight(w, userId)
  }

  ghost function UsedSlack(w: World, userId: Id): int {
    Balance(w.db.accounts, userId).used - ManifestBytes(w.db, userId) - AttachmentBytes(w.db, userId)
  }

  /** Foreign keys: rows reference existing notes, and attachments are charged to the note's owner. */
  ghost predicate Linked(db: Db) {
    && (forall id :: id in db.uploads ==> db.uploads[id].noteId in db.notes)
    && (forall id :: id in db.manifests ==> db.manifests[id].noteId in db.notes)
    && (forall id :: id in db.attachments ==> Owns(db.notes, db.attachments[id].noteId, db.attachments[id].ownerUserId))
  }

  ghost predicate WithinQuota(config: Config, w: World) {
    forall u :: Balance(w.db.accounts, u).used + Balance(w.db.accounts, u).reserved <= config.quota
  }

  ghost predicate Covered(w: World) {
    forall u :: 0 <= ReservedSlack(w, u) && 0 <= UsedSlack(w, u)
  }

  /** Whoever has bytes in flight has an account row. */
  ghost predicate Funded(w: World) {
    forall id :: id in w.holds ==> w.holds[id].ownerUserId in w.db.accounts
  }

  ghost predicate LedgerInv(config: Config, w: World) {
    Inv(w.db) && Linked(w.db) && Funded(w) && Covered(w) && WithinQuota(config, w)
  }

  ghost predicate SameSlack(before: World, after: World) {
    forall u :: ReservedSlack(after, u) == ReservedSlack(before, u) && UsedSlack(after, u) == UsedSlack(before, u)
  }

  // ----- how one row changes a sum -----

  lemma UploadChanges(notes: map<Id, Note>, uploads: map<Id, Upload>, id: Id, upload: Upload, userId: Id)
    ensures Total(UploadWeights(notes, uploads[id := upload], userId))
      == Total(UploadWeights(notes, uploads, userId))
       - (if id in uploads then UploadWeight(notes, uploads[id], userId) else 0) + UploadWeight(notes, upload, userId)
  {
    hide UploadWeight;
    TotalUpdate(UploadWeights(notes, uploads, userId), id, UploadWeight(notes, upload, userId));
    assert UploadWeights(notes, uploads[id := upload], userId) == UploadWeights(notes, uploads, userId)[id := UploadWeight(notes, upload, userId)];
  }

  lemma ManifestAdds(notes: map<Id, Note>, manifests: map<Id, Manifest>, id: Id, manifest: Manifest, userId: Id)
    requires id !in manifests
    ensures Total(ManifestWeights(notes, manifests[id := manifest], userId))
      == Total(ManifestWeights(notes, manifests, userId)) + ManifestWeight(notes, manifest, userId)
  {
    hide ManifestWeight;
    TotalUpdate(ManifestWeights(notes, manifests, userId), id, ManifestWeight(notes, manifest, userId));
    assert ManifestWeights(notes, manifests[id := manifest], userId)
        == ManifestWeights(notes, manifests, userId)[id := ManifestWeight(notes, manifest, userId)];
  }

  lemma AttachmentAdds(notes: map<Id, Note>, attachments: map<Id, Attachment>, id: Id, attachment: Attachment,
      userId: Id)
    requires id !in attachments
    ensures Total(AttachmentWeights(notes, attachments[id := attachment], userId))
      == Total(AttachmentWeights(notes, attachments, userId)) + AttachmentWeight(notes, attachment, userId)
  {
    hide AttachmentWeight;
    TotalUpdate(AttachmentWeights(notes, attachments, userId), id, AttachmentWeight(notes, attachment, userId));
    assert AttachmentWeights(notes, attachments[id := attachment], userId)
        == AttachmentWeights(notes, attachments, userId)[id := AttachmentWeight(notes, attachment, userId)];
  }

  lemma AttachmentGoes(notes: map<Id, Note>, attachments: map<Id, Attachment>, id: Id, userId: Id)
    requires id in attachments
    ensures Total(AttachmentWeights(notes, attachments - {id}, userId))
      == Total(AttachmentWeights(notes, attachments, userId)) - AttachmentWeight(notes, attachments[id], userId)
  {
    hide AttachmentWeight;
    TotalRemove(AttachmentWeights(notes, attachments, userId), id);
    assert AttachmentWeights(notes, attachments - {id}, userId) == AttachmentWeights(notes, attachments, userId) - {id};
  }

  lemma HoldAdds(holds: map<Id, Hold>, id: Id, hold: Hold, userId: Id)
    requires id !in holds
    ensures Total(HoldWeights(holds[id := hold], userId)) == Total(HoldWeights(holds, userId)) + HoldWeight(hold, userId)
  {
    hide HoldWeight;
    TotalUpdate(HoldWeights(holds, userId), id, HoldWeight(hold, userId));
    assert HoldWeights(holds[id := hold], userId) == HoldWeights(holds, userId)[id := HoldWeight(hold, userId)];
  }

  lemma HoldGoes(holds: map<Id, Hold>, id: Id, userId: Id)
    requires id in holds
    ensures Total(HoldWeights(holds - {id}, userId)) == Total(HoldWeights(holds, userId)) - HoldWeight(holds[id], userId)
  {
    hide HoldWeight;
    TotalRemove(HoldWeights(holds, userId), id);
    assert HoldWeights(holds - {id}, userId) == HoldWeights(holds, userId) - {id};
  }

  /** What an upload or a hold claims is within the reservation, so no release is ever clamped. */
  lemma ReservedSuffices(w: World, userId: Id)
    requires Covered(w)
    ensures forall id :: id in w.db.uploads ==> UploadWeight(w.db.notes, w.db.uploads[id], userId) <= Balance(w.db.accounts, userId).reserved
    ensures forall id :: id in w.holds ==> HoldWeight(w.holds[id], userId) <= Balance(w.db.accounts, userId).reserved
    ensures forall id :: id in w.db.attachments ==> AttachmentWeight(w.db.notes, w.db.attachments[id], userId) <= Balance(w.db.accounts, userId).used
  {
    hide UploadWeight, HoldWeight, AttachmentWeight;
    assert 0 <= ReservedSlack(w, userId) && 0 <= UsedSlack(w, userId);
    forall id | id in w.db.uploads ensures UploadWeight(w.db.notes, w.db.uploads[id], userId) <= UploadBytes(w.db, userId) {
      TotalAtLeast(UploadWeights(w.db.notes, w.db.uploads, userId), id);
    }
    forall id | id in w.holds ensures HoldWeight(w.holds[id], userId) <= InFlight(w, userId) {
      TotalAtLeast(HoldWeights(w.holds, userId), id);
    }
    forall id | id in w.db.attachments ensures AttachmentWeight(w.db.notes, w.db.attachments[id], userId) <= AttachmentBytes(w.db, userId) {
      TotalAtLeast(AttachmentWeights(w.db.notes, w.db.attachments, userId), id);
    }
  }

  // ----- balances after the account statements -----

  function Share(owner: Id, amount: int, userId: Id): int { if userId == owner then amount else 0 }

  /** One user's counters moved by these amounts; everybody else's stayed. */
  ghost predicate Moved(before: map<Id, Account>, after: map<Id, Account>, owner: Id, used: int, reserved: int) {
    forall u :: MovedAt(before, after, owner, used, reserved, u)
  }

  predicate MovedAt(before: map<Id, Account>, after: map<Id, Account>, owner: Id, used: int, reserved: int, u: Id) {
    && Balance(after, u).used == Balance(before, u).used + Share(owner, used, u)
    && Balance(after, u).reserved == Balance(before, u).reserved + Share(owner, reserved, u)
  }

  lemma ReserveMoves(accounts: map<Id, Account>, owner: Id, bytes: nat, quota: nat)
    ensures var (after, ok) := Reserve(accounts, owner, bytes, quota);
      && (ok ==> Fits(Balance(accounts, owner), bytes, quota))
      && Moved(accounts, after, owner, 0, if ok then bytes else 0)
  {
  }

  lemma ReleaseMoves(accounts: map<Id, Account>, owner: Id, bytes: nat)
    requires bytes <= Balance(accounts, owner).reserved
    ensures Moved(accounts, Release(accounts, owner, bytes), owner, 0, 0 - bytes)
  {
  }

  lemma LoweredMoves(accounts: map<Id, Account>, owner: Id, bytes: nat)
    requires bytes <= Balance(accounts, owner).used
    ensures Moved(accounts, Lowered(accounts, owner, bytes), owner, 0 - bytes, 0)
  {
  }

  lemma MovedKeepsQuota(config: Config, w: World, next: World, owner: Id, used: int, reserved: int)
    requires WithinQuota(config, w) && Moved(w.db.accounts, next.db.accounts, owner, used, reserved)
    requires used + reserved <= 0
      || (used == 0 && reserved >= 0 && Fits(Balance(w.db.accounts, owner), reserved, config.quota))
    ensures WithinQuota(config, next)
  {
    forall u ensures Balance(next.db.accounts, u).used + Balance(next.db.accounts, u).reserved <= config.quota {
      assert MovedAt(w.db.accounts, next.db.accounts, owner, used, reserved, u);
    }
  }

  // ----- slack after one row changed -----

  function Weight(upload: Upload): nat { if Reserves(upload.status) then upload.totalCipherBytes else 0 }

  function OldWeight(uploads: map<Id, Upload>, id: Id): nat { if id in uploads then Weight(uploads[id]) else 0 }

  ghost predicate OnlyUploads(w: World, next: World) {
    && next.holds == w.holds && next.db.notes == w.db.notes
    && next.db.manifests == w.db.manifests && next.db.attachments == w.db.attachments
  }

  lemma UploadSlack(w: World, next: World, id: Id, upload: Upload)
    requires OnlyUploads(w, next) && next.db.uploads == w.db.uploads[id := upload]
    requires upload.noteId in w.db.notes && (id in w.db.uploads ==> w.db.uploads[id].noteId == upload.noteId)
    requires Moved(w.db.accounts, next.db.accounts, w.db.notes[upload.noteId].ownerUserId, 0, Weight(upload) - OldWeight(w.db.uploads, id))
    ensures SameSlack(w, next)
  {
    hide UploadWeights, Total, Balance;
    var owner := w.db.notes[upload.noteId].ownerUserId;
    var delta := Weight(upload) - OldWeight(w.db.uploads, id);
    forall u ensures ReservedSlack(next, u) == ReservedSlack(w, u) && UsedSlack(next, u) == UsedSlack(w, u) {
      UploadChanges(w.db.notes, w.db.uploads, id, upload, u);
      assert MovedAt(w.db.accounts, next.db.accounts, owner, 0, delta, u);
    }
  }

  lemma SameRowsSameSlack(w: World, next: World)
    requires OnlyUploads(w, next) && next.db.uploads == w.db.uploads && SameBalances(w.db.accounts, next.db.accounts)
    ensures SameSlack(w, next)
  {
    hide Balance, Total;
  }

  // ----- each transaction conserves -----

  /** What every conserving step keeps. */
  ghost predicate Conserves(config: Config, w: World, next: World) {
    SameSlack(w, next) && WithinQuota(config, next) && Linked(next.db)
  }

  lemma BeginConserves(config: Config, w: World, session: bool, userId: Id, input: BeginInput)
    requires LedgerInv(config, w)
    ensures Conserves(config, w, w.(db := Begun(w.db, session, userId, input, config.quota).0))
  {
    hide Begun, Opened, Inv, Covered, WithinQuota, Balance, SameSlack;
    var base, upload := BeginShape(w.db, session, userId, input, config.quota);
    var middle := w.(db := base);
    SameRowsSameSlack(w, middle);
    QuotaFromBalances(config, w, middle);
    if upload.Some? {
      OpenedConserves(config, middle, input, upload.value);
      SlackChains(w, middle, w.(db := Begun(w.db, session, userId, input, config.quota).0));
    }
  }

  lemma SlackChains(a: World, b: World, c: World)
    requires SameSlack(a, b) && SameSlack(b, c)
    ensures SameSlack(a, c)
  {
    hide ReservedSlack, UsedSlack;
  }

  lemma QuotaFromBalances(config: Config, w: World, next: World)
    requires WithinQuota(config, w) && SameBalances(w.db.accounts, next.db.accounts)
    ensures WithinQuota(config, next)
  {
    hide Balance;
  }

  lemma OpenedConserves(config: Config, w: World, input: BeginInput, upload: Upload)
    requires WithinQuota(config, w) && Linked(w.db) && Opens(w.db, input, upload, config.quota)
    ensures Conserves(config, w, w.(db := Opened(w.db, w.db.notes[input.noteId].ownerUserId, input.uploadId, upload, config.quota).value))
  {
    hide Reserve, SameSlack, Moved, WithinQuota, Balance;
    var owner := w.db.notes[input.noteId].ownerUserId;
    var next := w.(db := Opened(w.db, owner, input.uploadId, upload, config.quota).value);
    ReserveMoves(w.db.accounts, owner, upload.totalCipherBytes, config.quota);
    UploadSlack(w, next, input.uploadId, upload);
    MovedKeepsQuota(config, w, next, owner, 0, upload.totalCipherBytes);
  }

  lemma ClosedConserves(config: Config, w: World, id: Id, status: UploadStatus)
    requires LedgerInv(config, w) && Closes(w.db, id, status)
    ensures Conserves(config, w, w.(db := Closed(w.db, w.db.notes[w.db.uploads[id].noteId].ownerUserId, id, status)))
  {
    hide Release, SameSlack, Moved, WithinQuota, Balance, Covered, Inv;
    var upload := w.db.uploads[id];
    var owner := w.db.notes[upload.noteId].ownerUserId;
    var next := w.(db := Closed(w.db, owner, id, status));
    ReservedSuffices(w, owner);
    assert UploadWeight(w.db.notes, upload, owner) == upload.totalCipherBytes;
    ReleaseMoves(w.db.accounts, owner, upload.totalCipherBytes);
    UploadSlack(w, next, id, upload.(status := status));
    MovedKeepsQuota(config, w, next, owner, 0, 0 - upload.totalCipherBytes);
  }

  lemma ClosingConserves(config: Config, w: World, step: Step)
    requires LedgerInv(config, w) && ClosingStep(step)
    ensures Conserves(config, w, Next(config, w, step))
  {
    hide Next, Closed, LedgerInv;
    var id, status := ClosingShape(config, w, step);
    if status.Some? {
      ClosedConserves(config, w, id, status.value);
    } else {
      NothingConserves(config, w);
    }
  }

  lemma NothingConserves(config: Config, w: World)
    requires LedgerInv(config, w)
    ensures Conserves(config, w, w)
  {
    hide ReservedSlack, UsedSlack, Balance;
  }

  lemma ChunkConserves(config: Config, w: World, session: bool, userId: Id, id: Id, chunk: StoredChunk)
    requires LedgerInv(config, w)
    ensures Conserves(config, w, w.(db := Registered(w.db, session, userId, id, chunk).0))
  {
    hide Registered, StatusAfter, LedgerInv, SameSlack, Moved, WithinQuota, Balance;
    var added := ChunkShape(w.db, session, userId, id, chunk);
    NothingConserves(config, w);
    if added {
      LedgerParts(config, w);
      var next := w.(db := Extended(w.db, id, chunk));
      var rows := ChunksOf(w.db.chunks, id)[chunk.chunkIndex := chunk];
      StatusStillReserves(w.db.uploads[id], rows);
      NothingMoved(w.db.accounts, w.db.notes[w.db.uploads[id].noteId].ownerUserId);
      UploadSlack(w, next, id, w.db.uploads[id].(status := StatusAfter(w.db.uploads[id], rows)));
      MovedKeepsQuota(config, w, next, w.db.notes[w.db.uploads[id].noteId].ownerUserId, 0, 0);
    }
  }

  lemma LedgerParts(config: Config, w: World)
    requires LedgerInv(config, w)
    ensures Inv(w.db) && Linked(w.db) && Funded(w) && Covered(w) && WithinQuota(config, w)
  {
  }

  lemma StatusStillReserves(upload: Upload, rows: ChunkRows)
    requires Reserves(upload.status)
    ensures Weight(upload.(status := StatusAfter(upload, rows))) == Weight(upload)
  {
  }

  lemma NothingMoved(accounts: map<Id, Account>, owner: Id)
    ensures Moved(accounts, accounts, owner, 0, 0)
  {
  }

  /** A commit turns exactly the upload's reservation into usage. */
  lemma WriteMoves(db: Db, owner: Id, input: CommitInput, textHash: string -> string)
    requires input.uploadId in db.uploads && Write(db, owner, input, textHash).Written?
    ensures var next := Write(db, owner, input, textHash).db;
      var bytes := db.uploads[input.uploadId].totalCipherBytes;
      && next.notes == db.notes && next.attachments == db.attachments
      && bytes <= Balance(db.accounts, owner).reserved
      && Moved(db.accounts, next.accounts, owner, bytes, 0 - bytes)
  {
    hide Append, NewManifest, ManifestRow, OrderedRows, ReceivedBytes, Contiguous, SectionRefusal, KeyTaken;
  }

  lemma CommitConserves(config: Config, w: World, session: bool, userId: Id, request: CommitInput)
    requires LedgerInv(config, w)
    ensures Conserves(config, w, w.(db := CommitNext(config, w.db, session, userId, request)))
  {
    hide Write, LedgerInv, Conserves;
    NothingConserves(config, w);
    if CommitGate(w.db, session, userId, request).None? && !HasManifest(w.db.manifests, request.uploadId) {
      var owner := AccessOf(w.db, w.db.uploads[request.uploadId].noteId, userId).value.ownerUserId;
      if Write(w.db, owner, request, config.textHash).Written? {
        WriteConserves(config, w, owner, request);
      }
    }
  }

  lemma WriteConserves(config: Config, w: World, owner: Id, request: CommitInput)
    requires LedgerInv(config, w)
    requires request.uploadId in w.db.uploads && Owns(w.db.notes, w.db.uploads[request.uploadId].noteId, owner)
    requires Write(w.db, owner, request, config.textHash).Written?
    ensures Conserves(config, w, w.(db := Write(w.db, owner, request, config.textHash).db))
  {
    hide Write, Inv, Covered, WithinQuota, Balance, Moved, Total, UploadWeights, ManifestWeights;
    var upload := w.db.uploads[request.uploadId];
    var next := w.(db := Write(w.db, owner, request, config.textHash).db);
    WriteShape(w.db, owner, request, config.textHash);
    WriteMoves(w.db, owner, request, config.textHash);
    var manifest := NewManifest(upload, request.uploadId, w.db.log.sections[upload.sectionId].currentSequence + 1);
    forall u ensures ReservedSlack(next, u) == ReservedSlack(w, u) && UsedSlack(next, u) == UsedSlack(w, u) {
      UploadChanges(w.db.notes, w.db.uploads, request.uploadId, upload.(status := Committed), u);
      ManifestAdds(w.db.notes, w.db.manifests, request.requestId, manifest, u);
      MovedHere(w.db.accounts, next.db.accounts, owner, upload.totalCipherBytes, 0 - upload.totalCipherBytes, u);
    }
    MovedKeepsQuota(config, w, next, owner, upload.totalCipherBytes, 0 - upload.totalCipherBytes);
  }

  lemma MovedHere(before: map<Id, Account>, after: map<Id, Account>, owner: Id, used: int, reserved: int, u: Id)
    requires Moved(before, after, owner, used, reserved)
    ensures Balance(after, u).used == Balance(before, u).used + Share(owner, used, u)
    ensures Balance(after, u).reserved == Balance(before, u).reserved + Share(owner, reserved, u)
  {
    assert MovedAt(before, after, owner, used, reserved, u);
  }

  // ----- attachments -----

  lemma HoldConserves(config: Config, w: World, holdId: Id, userId: Id, noteId: Id, attachmentId: Id, size: nat,
      epoch: nat)
    requires LedgerInv(config, w) && holdId !in w.holds
    ensures Conserves(config, w, Next(config, w, HoldStep(holdId, userId, noteId, attachmentId, size, epoch)))
  {
    hide AttachmentReserved, Inv, Covered, WithinQuota, Balance, Moved, Reserve, Total, HoldWeights;
    var next := Next(config, w, HoldStep(holdId, userId, noteId, attachmentId, size, epoch));
    var outcome := AttachmentReserved(w.db, userId, noteId, attachmentId, size, epoch, config.quota).1;
    ReservationTerms(w.db, userId, noteId, attachmentId, size, epoch, config.quota);
    if outcome.Held? {
      var hold := Hold(noteId, outcome.ownerUserId, attachmentId, epoch, size);
      ReserveMoves(w.db.accounts, outcome.ownerUserId, size, config.quota);
      forall u ensures ReservedSlack(next, u) == ReservedSlack(w, u) && UsedSlack(next, u) == UsedSlack(w, u) {
        HoldAdds(w.holds, holdId, hold, u);
        MovedHere(w.db.accounts, next.db.accounts, outcome.ownerUserId, 0, size, u);
      }
      MovedKeepsQuota(config, w, next, outcome.ownerUserId, 0, size);
    } else {
      SameRowsSameSlack(w, next);
      QuotaFromBalances(config, w, next);
    }
  }

  lemma LetGoConserves(config: Config, w: World, holdId: Id)
    requires LedgerInv(config, w) && holdId in w.holds
    ensures Conserves(config, w, Next(config, w, LetGoStep(holdId)))
  {
    hide Inv, Covered, WithinQuota, Balance, Moved, Release, Total, HoldWeights;
    var hold := w.holds[holdId];
    var next := Next(config, w, LetGoStep(holdId));
    ReservedSuffices(w, hold.ownerUserId);
    ReleaseMoves(w.db.accounts, hold.ownerUserId, hold.size);
    forall u ensures ReservedSlack(next, u) == ReservedSlack(w, u) && UsedSlack(next, u) == UsedSlack(w, u) {
      HoldGoes(w.holds, holdId, u);
      MovedHere(w.db.accounts, next.db.accounts, hold.ownerUserId, 0, 0 - hold.size, u);
    }
    MovedKeepsQuota(config, w, next, hold.ownerUserId, 0, 0 - hold.size);
  }

  /** With the invariant, a commit that passes the gates is always stored: its bytes are reserved. */
  lemma AttachTerms(config: Config, w: World, holdId: Id, session: bool, actorUserId: Id)
    requires LedgerInv(config, w) && holdId in w.holds
    ensures var hold := w.holds[holdId];
      var (db, outcome) := AttachmentCommitted(w.db, session, actorUserId, hold.noteId, hold.ownerUserId, hold.keyEpoch, hold.attachmentId, hold.size);
      && outcome != AttachmentRefused(OverQuota)
      && (outcome.AttachmentStored? ==>
            && Owns(w.db.notes, hold.noteId, hold.ownerUserId) && hold.attachmentId !in w.db.attachments
            && db == w.db.(attachments := w.db.attachments[hold.attachmentId := Attachment(hold.noteId, hold.ownerUserId, hold.size)],
                           accounts := db.accounts)
            && Moved(w.db.accounts, db.accounts, hold.ownerUserId, hold.size, 0 - hold.size))
      && (outcome.AttachmentRefused? ==> db == w.db)
  {
    hide Inv, Covered, WithinQuota;
    var hold := w.holds[holdId];
    ReservedSuffices(w, hold.ownerUserId);
    assert HoldWeight(hold, hold.ownerUserId) == hold.size;
    CommitTerms(w.db, session, actorUserId, hold.noteId, hold.ownerUserId, hold.keyEpoch, hold.attachmentId, hold.size);
  }

  lemma AttachConserves(config: Config, w: World, holdId: Id, session: bool, actorUserId: Id)
    requires LedgerInv(config, w) && holdId in w.holds
    ensures Conserves(config, w, Next(config, w, AttachStep(holdId, session, actorUserId)))
  {
    hide Inv, Covered, WithinQuota, Balance, Moved, AttachmentCommitted, Total, HoldWeights, AttachmentWeights;
    var hold := w.holds[holdId];
    var next := Next(config, w, AttachStep(holdId, session, actorUserId));
    AttachTerms(config, w, holdId, session, actorUserId);
    if AttachmentCommitted(w.db, session, actorUserId, hold.noteId, hold.ownerUserId, hold.keyEpoch, hold.attachmentId, hold.size).1.AttachmentStored? {
      forall u ensures ReservedSlack(next, u) == ReservedSlack(w, u) && UsedSlack(next, u) == UsedSlack(w, u) {
        HoldGoes(w.holds, holdId, u);
        AttachmentAdds(w.db.notes, w.db.attachments, hold.attachmentId, Attachment(hold.noteId, hold.ownerUserId, hold.size), u);
        MovedHere(w.db.accounts, next.db.accounts, hold.ownerUserId, hold.size, 0 - hold.size, u);
      }
      MovedKeepsQuota(config, w, next, hold.ownerUserId, hold.size, 0 - hold.size);
    } else {
      NothingConserves(config, w);
    }
  }

  lemma DetachConserves(config: Config, w: World, noteId: Id, attachmentId: Id, userId: Id)
    requires LedgerInv(config, w) && attachmentId in w.db.attachments
    ensures Conserves(config, w, Next(config, w, DetachStep(noteId, attachmentId, userId)))
  {
    hide Inv, Covered, WithinQuota, Balance, Moved, Lowered, Total, AttachmentWeights;
    var next := Next(config, w, DetachStep(noteId, attachmentId, userId));
    var size: int := w.db.attachments[attachmentId].size;
    if DeletesAttachment(w.db, noteId, attachmentId, userId) {
      ReservedSuffices(w, userId);
      assert AttachmentWeight(w.db.notes, w.db.attachments[attachmentId], userId) == size;
      LoweredMoves(w.db.accounts, userId, size);
      forall u ensures ReservedSlack(next, u) == ReservedSlack(w, u) && UsedSlack(next, u) == UsedSlack(w, u) {
        AttachmentGoes(w.db.notes, w.db.attachments, attachmentId, u);
        MovedHere(w.db.accounts, next.db.accounts, userId, 0 - size, 0, u);
      }
      MovedKeepsQuota(config, w, next, userId, 0 - size, 0);
    } else {
      NothingConserves(config, w);
    }
  }

  // ----- notes, members, the log -----

  /** Ownership of the notes that rows refer to decides the sums. */
  lemma OwnershipDecides(w: World, next: World)
    requires Linked(w.db) && next.holds == w.holds
    requires next.db.uploads == w.db.uploads && next.db.manifests == w.db.manifests && next.db.attachments == w.db.attachments
    requires next.db.accounts == w.db.accounts
    requires SameOwners(w.db.notes, next.db.notes)
    ensures SameSlack(w, next) && Linked(next.db)
  {
    hide Total, Balance, UploadWeights, ManifestWeights, AttachmentWeights, HoldWeights;
    forall u ensures ReservedSlack(next, u) == ReservedSlack(w, u) && UsedSlack(next, u) == UsedSlack(w, u) {
      SameWeights(w.db, next.db, u);
    }
  }

  ghost predicate SameOwners(notes: map<Id, Note>, next: map<Id, Note>) {
    forall n :: n in notes ==> n in next && next[n].ownerUserId == notes[n].ownerUserId
  }

  lemma SameWeights(db: Db, next: Db, u: Id)
    requires Linked(db) && SameOwners(db.notes, next.notes)
    requires next.uploads == db.uploads && next.manifests == db.manifests && next.attachments == db.attachments
    ensures UploadWeights(next.notes, next.uploads, u) == UploadWeights(db.notes, db.uploads, u)
    ensures ManifestWeights(next.notes, next.manifests, u) == ManifestWeights(db.notes, db.manifests, u)
    ensures AttachmentWeights(next.notes, next.attachments, u) == AttachmentWeights(db.notes, db.attachments, u)
  {
  }

  predicate SideStep(step: Step) { step.NoteStep? || step.MemberStep? || step.LogStep? }

  lemma SideConserves(config: Config, w: World, step: Step)
    requires LedgerInv(config, w) && SideStep(step) && Enabled(w, step)
    ensures Conserves(config, w, Next(config, w, step))
  {
    hide Inv, Covered, Balance, SameSlack, HistoryMeaning.Apply;
    OwnershipDecides(w, Next(config, w, step));
  }

  // ----- account rows stay -----

  lemma StepKeepsAccounts(config: Config, w: World, step: Step)
    ensures w.db.accounts.Keys <= Next(config, w, step).db.accounts.Keys
  {
    hide Begun, Registered, StatusRead, AbortedBy, ExpireOne, CommitNext, AttachmentReserved, AttachmentCommitted, HistoryMeaning.Apply,
         AccessOf, Recomputed, WithoutNote, Balance;
    match step
    case BeginStep(session, userId, input) => var base, upload := BeginShape(w.db, session, userId, input, config.quota);
    case ChunkStep(session, userId, uploadId, chunk) => var added := ChunkShape(w.db, session, userId, uploadId, chunk);
    case CommitStep(session, userId, request) => CommitKeepsAccounts(config, w.db, session, userId, request);
    case HoldStep(holdId, userId, noteId, attachmentId, size, epoch) =>
      ReservationTerms(w.db, userId, noteId, attachmentId, size, epoch, config.quota);
    case AttachStep(holdId, session, actorUserId) =>
      if holdId in w.holds {
        AttachmentKeepsAccounts(w.db, session, actorUserId, w.holds[holdId]);
      }
    case _ =>
      if ClosingStep(step) {
        var id, status := ClosingShape(config, w, step);
      }
  }

  lemma AttachmentKeepsAccounts(db: Db, session: bool, actorUserId: Id, hold: Hold)
    ensures db.accounts.Keys <=
      AttachmentCommitted(db, session, actorUserId, hold.noteId, hold.ownerUserId, hold.keyEpoch, hold.attachmentId, hold.size).0.accounts.Keys
  {
    hide AttachmentGate;
  }

  lemma CommitKeepsAccounts(config: Config, db: Db, session: bool, userId: Id, request: CommitInput)
    ensures db.accounts.Keys <= CommitNext(config, db, session, userId, request).accounts.Keys
  {
    hide Append, NewManifest, ManifestRow, OrderedRows, ReceivedBytes, Contiguous, SectionRefusal, KeyTaken, RowsRefusal;
  }

  lemma StepKeepsFunded(config: Config, w: World, step: Step)
    requires Funded(w)
    ensures Funded(Next(config, w, step))
  {
    hide Begun, Registered, StatusRead, AbortedBy, ExpireOne, CommitNext, HistoryMeaning.Apply, NoteDeleted, AttachmentDeleted,
         Reconciled, AttachmentCommitted, AttachmentReserved, Reserve;
    StepKeepsAccounts(config, w, step);
    if step.HoldStep? {
      ReservationTerms(w.db, step.userId, step.noteId, step.attachmentId, step.size, step.expectedKeyEpoch, config.quota);
      ReserveFunds(w.db.accounts, config.quota, step.size);
    }
  }

  lemma ReserveFunds(accounts: map<Id, Account>, quota: nat, bytes: nat)
    ensures forall owner :: owner in Reserve(accounts, owner, bytes, quota).0
  {
  }

  // ----- the conserving steps -----

  predicate Conserving(step: Step) { !step.DeleteNoteStep? && !step.ReconcileStep? }

  /** Every step but a permanent deletion and a reconciliation leaves both slacks exactly as they were. */
  lemma StepConserves(config: Config, w: World, step: Step)
    requires LedgerInv(config, w) && Enabled(w, step) && Conserving(step)
    ensures Conserves(config, w, Next(config, w, step))
  {
    hide LedgerInv, Conserves, Begun, Registered, StatusRead, AbortedBy, ExpireOne, CommitNext, AttachmentReserved, AttachmentCommitted, AttachmentDeleted;
    match step
    case BeginStep(session, userId, input) => BeginConserves(config, w, session, userId, input);
    case ChunkStep(session, userId, uploadId, chunk) => ChunkConserves(config, w, session, userId, uploadId, chunk);
    case CommitStep(session, userId, request) => CommitConserves(config, w, session, userId, request);
    case HoldStep(holdId, userId, noteId, attachmentId, size, epoch) => HoldConserves(config, w, holdId, userId, noteId, attachmentId, size, epoch);
    case AttachStep(holdId, session, actorUserId) =>
      if holdId in w.holds { AttachConserves(config, w, holdId, session, actorUserId); } else { NothingConserves(config, w); }
    case LetGoStep(holdId) =>
      if holdId in w.holds { LetGoConserves(config, w, holdId); } else { NothingConserves(config, w); }
    case DetachStep(noteId, attachmentId, userId) =>
      if attachmentId in w.db.attachments { DetachConserves(config, w, noteId, attachmentId, userId); } else { NothingConserves(config, w); }
    case _ =>
      if ClosingStep(step) {
        ClosingConserves(config, w, step);
      } else {
        SideConserves(config, w, step);
      }
  }

  // ----- permanent deletion and reconciliation -----

  /** What a note's uploads hold, and what its manifests are counted for. */
  function NoteUploads(uploads: map<Id, Upload>, noteId: Id): map<Id, nat> {
    map id | id in uploads :: if uploads[id].noteId == noteId then Weight(uploads[id]) else 0
  }

  function NoteManifests(manifests: map<Id, Manifest>, noteId: Id): map<Id, nat> {
    map id | id in manifests :: if manifests[id].noteId == noteId then manifests[id].totalCipherBytes else 0
  }

  /** Bytes that stay in the counters without a row behind them. */
  datatype Left = Left(reserved: nat, used: nat)

  const NOTHING := Left(0, 0)

  function Both(a: Left, b: Left): Left { Left(a.reserved + b.reserved, a.used + b.used) }

  /** What deleting a note leaves counted for a user: its uploads' and manifests' bytes, for its owner. */
  ghost function LeftByDeletion(db: Db, noteId: Id, ownerUserId: Id, u: Id): Left {
    if u == ownerUserId && Owns(db.notes, noteId, ownerUserId)
    then Left(Total(NoteUploads(db.uploads, noteId)), Total(NoteManifests(db.manifests, noteId))) else NOTHING
  }

  lemma {:induction false} TotalSplit(whole: map<Id, nat>, left: map<Id, nat>, right: map<Id, nat>)
    requires right.Keys == whole.Keys && left.Keys <= whole.Keys
    requires forall id :: id in whole ==> whole[id] == right[id] + (if id in left then left[id] else 0)
    ensures Total(whole) == Total(left) + Total(right)
    decreases |whole|
  {
    if whole != map[] {
      var id :| id in whole;
      TotalRemove(whole, id);
      TotalRemove(right, id);
      if id in left {
        TotalRemove(left, id);
        TotalSplit(whole - {id}, left - {id}, right - {id});
      } else {
        assert left == left - {id};
        TotalSplit(whole - {id}, left, right - {id});
      }
    } else {
      assert left == map[] && right == map[];
    }
  }

  /** The attachments that go with a note are the ones charged to its owner. */
  lemma NoteAttachmentBytes(db: Db, noteId: Id, ownerUserId: Id, u: Id)
    requires Linked(db) && Owns(db.notes, noteId, ownerUserId)
    ensures AttachmentBytes(db, u)
      == AttachmentBytes(WithoutNote(db, noteId), u) + (if u == ownerUserId then Total(NoteAttachments(db.attachments, noteId, ownerUserId)) else 0)
  {
    hide Total;
    var whole := AttachmentWeights(db.notes, db.attachments, u);
    var left := AttachmentWeights(db.notes - {noteId}, AttachmentsWithout(db.attachments, noteId), u);
    if u == ownerUserId {
      TotalSplit(whole, left, NoteAttachments(db.attachments, noteId, ownerUserId));
    } else {
      var none := map id | id in db.attachments :: 0 as nat;
      TotalSplit(whole, left, none);
      TotalZero(none);
    }
  }

  /** The same for uploads and manifests, which are charged to the owner of their note. */
  lemma NoteUploadBytes(db: Db, noteId: Id, ownerUserId: Id, u: Id)
    requires Owns(db.notes, noteId, ownerUserId)
    ensures UploadBytes(db, u) == UploadBytes(WithoutNote(db, noteId), u) + LeftByDeletion(db, noteId, ownerUserId, u).reserved
  {
    hide Total;
    var whole, left := UploadWeights(db.notes, db.uploads, u), UploadWeights(db.notes - {noteId}, UploadsWithout(db.uploads, noteId), u);
    if u == ownerUserId {
      TotalSplit(whole, left, NoteUploads(db.uploads, noteId));
    } else {
      var none := map id | id in db.uploads :: 0 as nat;
      TotalSplit(whole, left, none);
      TotalZero(none);
    }
  }

  lemma NoteManifestBytes(db: Db, noteId: Id, ownerUserId: Id, u: Id)
    requires Owns(db.notes, noteId, ownerUserId)
    ensures ManifestBytes(db, u) == ManifestBytes(WithoutNote(db, noteId), u) + LeftByDeletion(db, noteId, ownerUserId, u).used
  {
    hide Total;
    var whole, left := ManifestWeights(db.notes, db.manifests, u), ManifestWeights(db.notes - {noteId}, ManifestsWithout(db.manifests, noteId), u);
    if u == ownerUserId {
      TotalSplit(whole, left, NoteManifests(db.manifests, noteId));
    } else {
      var none := map id | id in db.manifests :: 0 as nat;
      TotalSplit(whole, left, none);
      TotalZero(none);
    }
  }

  /** Deleting a note lets its owner's counters exceed the rows by exactly the bytes of its uploads and manifests. */
  lemma DeleteNoteLeaves(config: Config, w: World, noteId: Id, ownerUserId: Id)
    requires LedgerInv(config, w)
    ensures var next := w.(db := NoteDeleted(w.db, noteId, ownerUserId));
      && (forall u ::
            && ReservedSlack(next, u) == ReservedSlack(w, u) + LeftByDeletion(w.db, noteId, ownerUserId, u).reserved
            && UsedSlack(next, u) == UsedSlack(w, u) + LeftByDeletion(w.db, noteId, ownerUserId, u).used)
      && WithinQuota(config, next) && Linked(next.db)
  {
    hide Inv, Covered, WithinQuota, Balance, Lowered, Moved, Total, NoteAttachments, AttachmentWeights, MembersWithout, LogWithout,
      ChunksWithout, LeftByDeletion, UploadWeights, ManifestWeights;
    var next := w.(db := NoteDeleted(w.db, noteId, ownerUserId));
    if Owns(w.db.notes, noteId, ownerUserId) {
      var bytes: int := Total(NoteAttachments(w.db.attachments, noteId, ownerUserId));
      DeletedWithinUsage(w, noteId, ownerUserId);
      LoweredMoves(w.db.accounts, ownerUserId, bytes);
      forall u
        ensures ReservedSlack(next, u) == ReservedSlack(w, u) + LeftByDeletion(w.db, noteId, ownerUserId, u).reserved
        ensures UsedSlack(next, u) == UsedSlack(w, u) + LeftByDeletion(w.db, noteId, ownerUserId, u).used
      {
        NoteAttachmentBytes(w.db, noteId, ownerUserId, u);
        NoteUploadBytes(w.db, noteId, ownerUserId, u);
        NoteManifestBytes(w.db, noteId, ownerUserId, u);
        MovedHere(w.db.accounts, next.db.accounts, ownerUserId, 0 - bytes, 0, u);
      }
      MovedKeepsQuota(config, w, next, ownerUserId, 0 - bytes, 0);
    } else {
      forall u ensures LeftByDeletion(w.db, noteId, ownerUserId, u) == NOTHING {
        NotOwned(w.db, noteId, ownerUserId, u);
      }
    }
  }

  lemma NotOwned(db: Db, noteId: Id, ownerUserId: Id, u: Id)
    requires !Owns(db.notes, noteId, ownerUserId)
    ensures LeftByDeletion(db, noteId, ownerUserId, u) == NOTHING
  {
  }

  /** No upload of the note holds bytes, and no manifest of it counts any. */
  predicate Empty(db: Db, noteId: Id) {
    && (forall id :: id in db.uploads && db.uploads[id].noteId == noteId ==> Weight(db.uploads[id]) == 0)
    && (forall id :: id in db.manifests && db.manifests[id].noteId == noteId ==> db.manifests[id].totalCipherBytes == 0)
  }

  lemma LeavesNothingIff(db: Db, noteId: Id, ownerUserId: Id)
    requires Owns(db.notes, noteId, ownerUserId)
    ensures LeftByDeletion(db, noteId, ownerUserId, ownerUserId) == NOTHING <==> Empty(db, noteId)
  {
    hide Total, Weight;
    var uploads, manifests := NoteUploads(db.uploads, noteId), NoteManifests(db.manifests, noteId);
    TotalZero(uploads);
    TotalZero(manifests);
    if Total(uploads) == 0 && Total(manifests) == 0 {
      forall id | id in db.uploads && db.uploads[id].noteId == noteId ensures Weight(db.uploads[id]) == 0 {
        assert uploads[id] == 0;
      }
      forall id | id in db.manifests && db.manifests[id].noteId == noteId ensures db.manifests[id].totalCipherBytes == 0 {
        assert manifests[id] == 0;
      }
    }
  }

  /** A deletion leaves every difference between counters and rows as it was if and only if the note was empty. */
  lemma DeletionConservesIff(config: Config, w: World, noteId: Id, ownerUserId: Id)
    requires LedgerInv(config, w)
    ensures SameSlack(w, w.(db := NoteDeleted(w.db, noteId, ownerUserId)))
      <==> (Owns(w.db.notes, noteId, ownerUserId) ==> Empty(w.db, noteId))
  {
    hide LedgerInv, ReservedSlack, UsedSlack, NoteDeleted, LeftByDeletion, Empty;
    var next := w.(db := NoteDeleted(w.db, noteId, ownerUserId));
    DeleteNoteLeaves(config, w, noteId, ownerUserId);
    if Owns(w.db.notes, noteId, ownerUserId) {
      LeavesNothingIff(w.db, noteId, ownerUserId);
      forall u | u != ownerUserId ensures LeftByDeletion(w.db, noteId, ownerUserId, u) == NOTHING {
        NotTheOwner(w.db, noteId, ownerUserId, u);
      }
    } else {
      forall u ensures LeftByDeletion(w.db, noteId, ownerUserId, u) == NOTHING {
        NotOwned(w.db, noteId, ownerUserId, u);
      }
    }
  }

  lemma NotTheOwner(db: Db, noteId: Id, ownerUserId: Id, u: Id)
    requires u != ownerUserId
    ensures LeftByDeletion(db, noteId, ownerUserId, u) == NOTHING
  {
  }

  lemma DeletedWithinUsage(w: World, noteId: Id, ownerUserId: Id)
    requires Covered(w) && Linked(w.db) && Owns(w.db.notes, noteId, ownerUserId)
    ensures Total(NoteAttachments(w.db.attachments, noteId, ownerUserId)) <= Balance(w.db.accounts, ownerUserId).used
  {
    hide Total, NoteAttachments, AttachmentWeights;
    NoteAttachmentBytes(w.db, noteId, ownerUserId, ownerUserId);
    assert 0 <= UsedSlack(w, ownerUserId);
  }

  /**
   Reconciling sets usage to the rows and the reservation to the uploads: the used slack
   becomes zero, the reserved slack minus whatever attachments are in flight; nobody else's
   counters change, and with the invariant neither counter is raised.
   */
  lemma ReconcileSetsSlack(config: Config, w: World, userId: Id)
    requires LedgerInv(config, w)
    ensures var next := Next(config, w, ReconcileStep(userId));
      && UsedSlack(next, userId) == 0
      && ReservedSlack(next, userId) == 0 - InFlight(w, userId)
      && Balance(next.db.accounts, userId).used <= Balance(w.db.accounts, userId).used
      && Balance(next.db.accounts, userId).reserved <= Balance(w.db.accounts, userId).reserved
      && (forall u :: u != userId ==>
            ReservedSlack(next, u) == ReservedSlack(w, u) && UsedSlack(next, u) == UsedSlack(w, u))
      && WithinQuota(config, next) && Linked(next.db)
  {
    hide Inv, Total, UploadWeights, ManifestWeights, AttachmentWeights, HoldWeights;
    assert 0 <= ReservedSlack(w, userId) && 0 <= UsedSlack(w, userId);
    var next := Next(config, w, ReconcileStep(userId));
    forall u ensures Balance(next.db.accounts, u).used + Balance(next.db.accounts, u).reserved <= config.quota {
      assert Balance(w.db.accounts, u).used + Balance(w.db.accounts, u).reserved <= config.quota;
    }
  }

  /** Reconciliation brings the counters back to the rows exactly when the user has no attachment bytes in flight. */
  lemma ReconcileRestoresExactly(config: Config, w: World, userId: Id)
    requires LedgerInv(config, w)
    ensures var next := Next(config, w, ReconcileStep(userId));
      (ReservedSlack(next, userId) == 0 && UsedSlack(next, userId) == 0) <==> InFlight(w, userId) == 0
  {
    hide LedgerInv, Next, ReservedSlack, UsedSlack, InFlight;
    ReconcileSetsSlack(config, w, userId);
  }

  // ----- whole runs -----

  /** The condition on a step: reconcile only while nothing of that user is in flight. */
  ghost predicate Quiet(w: World, step: Step) {
    step.ReconcileStep? ==> InFlight(w, step.userId) == 0
  }

  lemma StepKeepsLedger(config: Config, w: World, step: Step)
    requires LedgerInv(config, w) && Enabled(w, step) && Quiet(w, step)
    ensures LedgerInv(config, Next(config, w, step))
  {
    hide Inv, Linked, Funded, WithinQuota, Next, Enabled, ReservedSlack, UsedSlack, InFlight;
    StepKeepsInv(config, w, step);
    StepKeepsFunded(config, w, step);
    if Conserving(step) {
      StepConserves(config, w, step);
    } else {
      OtherStepKeepsCovered(config, w, step);
    }
  }

  lemma OtherStepKeepsCovered(config: Config, w: World, step: Step)
    requires LedgerInv(config, w) && !Conserving(step) && Quiet(w, step)
    ensures var next := Next(config, w, step);
      Covered(next) && WithinQuota(config, next) && Linked(next.db)
  {
    hide LedgerInv, Linked, WithinQuota, ReservedSlack, UsedSlack, InFlight, NoteDeleted, Reconciled, LeftByDeletion;
    LedgerParts(config, w);
    var next := Next(config, w, step);
    if step.ReconcileStep? {
      ReconcileSetsSlack(config, w, step.userId);
      forall u ensures 0 <= ReservedSlack(next, u) && 0 <= UsedSlack(next, u) {
        assert 0 <= ReservedSlack(w, u) && 0 <= UsedSlack(w, u);
      }
    } else {
      DeleteNoteLeaves(config, w, step.noteId, step.userId);
      forall u ensures 0 <= ReservedSlack(next, u) && 0 <= UsedSlack(next, u) {
        assert 0 <= ReservedSlack(w, u) && 0 <= UsedSlack(w, u);
      }
    }
  }

  ghost predicate QuietRun(config: Config, w: World, steps: seq<Step>)
    decreases |steps|
  {
    steps == [] || (Enabled(w, steps[0]) && Quiet(w, steps[0]) && QuietRun(config, Next(config, w, steps[0]), steps[1..]))
  }

  lemma {:induction false} RunKeepsLedger(config: Config, w: World, steps: seq<Step>)
    requires LedgerInv(config, w) && QuietRun(config, w, steps)
    ensures LedgerInv(config, Run(config, w, steps))
    decreases |steps|
  {
    hide LedgerInv, Next, Enabled, Quiet;
    if steps != [] {
      StepKeepsLedger(config, w, steps[0]);
      RunKeepsLedger(config, Next(config, w, steps[0]), steps[1..]);
    }
  }

  /** What a step adds to what is left counted for a user; a reconciliation of the user clears it. */
  ghost function LeftAfter(w: World, step: Step, u: Id, before: Left): Left {
    match step
    case DeleteNoteStep(noteId, userId) => Both(before, LeftByDeletion(w.db, noteId, userId, u))
    case ReconcileStep(userId) => if userId == u then NOTHING else before
    case _ => before
  }

  /** What the deletions of a run leave counted for a user since the last reconciliation. */
  ghost function LeftOver(config: Config, w: World, steps: seq<Step>, u: Id, before: Left): Left
    decreases |steps|
  {
    if steps == [] then before
    else LeftOver(config, Next(config, w, steps[0]), steps[1..], u, LeftAfter(w, steps[0], u, before))
  }

  ghost predicate Exceeds(w: World, u: Id, left: Left) {
    ReservedSlack(w, u) == left.reserved && UsedSlack(w, u) == left.used
  }

  lemma StepExceeds(config: Config, w: World, step: Step, u: Id, before: Left)
    requires LedgerInv(config, w) && Enabled(w, step) && Quiet(w, step) && Exceeds(w, u, before)
    ensures Exceeds(Next(config, w, step), u, LeftAfter(w, step, u, before))
  {
    hide LedgerInv, Enabled, ReservedSlack, UsedSlack, InFlight, LeftByDeletion, NoteDeleted, Reconciled;
    match step
    case ReconcileStep(userId) => ReconcileSetsSlack(config, w, userId);
    case DeleteNoteStep(noteId, userId) => DeleteNoteLeaves(config, w, noteId, userId);
    case _ => ConservedAt(config, w, step, u);
  }

  lemma ConservedAt(config: Config, w: World, step: Step, u: Id)
    requires LedgerInv(config, w) && Enabled(w, step) && Conserving(step)
    ensures ReservedSlack(Next(config, w, step), u) == ReservedSlack(w, u) && UsedSlack(Next(config, w, step), u) == UsedSlack(w, u)
  {
    hide LedgerInv, Enabled, Next, ReservedSlack, UsedSlack;
    StepConserves(config, w, step);
  }

  lemma {:induction false} RunExceeds(config: Config, w: World, steps: seq<Step>, u: Id, before: Left)
    requires LedgerInv(config, w) && QuietRun(config, w, steps) && Exceeds(w, u, before)
    ensures Exceeds(Run(config, w, steps), u, LeftOver(config, w, steps, u, before))
    decreases |steps|
  {
    hide LedgerInv, Next, Enabled, Quiet, Exceeds, LeftAfter;
    if steps != [] {
      StepKeepsLedger(config, w, steps[0]);
      StepExceeds(config, w, steps[0], u, before);
      RunExceeds(config, Next(config, w, steps[0]), steps[1..], u, LeftAfter(w, steps[0], u, before));
    }
  }

  lemma NewDatabaseIsExact(config: Config)
    ensures LedgerInv(config, NEW_DATABASE) && forall u :: Exceeds(NEW_DATABASE, u, NOTHING)
  {
    forall u ensures ReservedSlack(NEW_DATABASE, u) == 0 && UsedSlack(NEW_DATABASE, u) == 0 {
      assert UploadWeights(map[], map[], u) == map[] && ManifestWeights(map[], map[], u) == map[];
      assert AttachmentWeights(map[], map[], u) == map[] && HoldWeights(map[], u) == map[];
    }
  }

  /**
   Conservation over every run: reserved bytes are exactly the uploads that hold bytes, the
   attachments in flight, and what deleted notes left; used bytes exactly the manifests, the
   attachments, and what deleted notes left; their sum stays within the quota.
   */
  lemma StorageIsConserved(config: Config, steps: seq<Step>, userId: Id)
    requires QuietRun(config, NEW_DATABASE, steps)
    ensures var w, left := Run(config, NEW_DATABASE, steps), LeftOver(config, NEW_DATABASE, steps, userId, NOTHING);
      && Balance(w.db.accounts, userId).reserved == UploadBytes(w.db, userId) + InFlight(w, userId) + left.reserved
      && Balance(w.db.accounts, userId).used == ManifestBytes(w.db, userId) + AttachmentBytes(w.db, userId) + left.used
      && Balance(w.db.accounts, userId).used + Balance(w.db.accounts, userId).reserved <= config.quota
  {
    hide Run, Inv, Linked, InFlight, UploadBytes, ManifestBytes, AttachmentBytes, QuietRun, LeftOver;
    NewDatabaseIsExact(config);
    RunKeepsLedger(config, NEW_DATABASE, steps);
    RunExceeds(config, NEW_DATABASE, steps, userId, NOTHING);
  }

  /** If the step deletes a note of the user, the note is empty. */
  predicate SparesBytes(w: World, step: Step, u: Id) {
    match step
    case DeleteNoteStep(noteId, userId) => userId == u && Owns(w.db.notes, noteId, u) ==> Empty(w.db, noteId)
    case _ => true
  }

  predicate Reconciles(step: Step, u: Id) { step.ReconcileStep? && step.userId == u }

  /** Every note of the user that the run deletes is empty by then. */
  ghost predicate DeletesEmpty(config: Config, w: World, steps: seq<Step>, u: Id)
    decreases |steps|
  {
    steps == [] || (SparesBytes(w, steps[0], u) && DeletesEmpty(config, Next(config, w, steps[0]), steps[1..], u))
  }

  lemma StepLeavesNothingIff(w: World, step: Step, u: Id, before: Left)
    requires !Reconciles(step, u)
    ensures LeftAfter(w, step, u, before) == NOTHING <==> before == NOTHING && SparesBytes(w, step, u)
  {
    hide Empty, LeftByDeletion;
    match step
    case DeleteNoteStep(noteId, userId) => DeletionLeavesIff(w.db, noteId, userId, u);
    case _ =>
  }

  lemma DeletionLeavesIff(db: Db, noteId: Id, ownerUserId: Id, u: Id)
    ensures LeftByDeletion(db, noteId, ownerUserId, u) == NOTHING
      <==> (ownerUserId == u && Owns(db.notes, noteId, u) ==> Empty(db, noteId))
  {
    hide Empty, LeftByDeletion;
    if ownerUserId != u {
      NotTheOwner(db, noteId, ownerUserId, u);
    } else if Owns(db.notes, noteId, u) {
      LeavesNothingIff(db, noteId, u);
    } else {
      NotOwned(db, noteId, u, u);
    }
  }

  lemma {:induction false} LeavesNothingRun(config: Config, w: World, steps: seq<Step>, u: Id, before: Left)
    requires forall i :: 0 <= i < |steps| ==> !Reconciles(steps[i], u)
    ensures LeftOver(config, w, steps, u, before) == NOTHING <==> before == NOTHING && DeletesEmpty(config, w, steps, u)
    decreases |steps|
  {
    hide Next, LeftAfter, SparesBytes, Reconciles;
    if steps != [] {
      StepLeavesNothingIff(w, steps[0], u, before);
      LeavesNothingRun(config, Next(config, w, steps[0]), steps[1..], u, LeftAfter(w, steps[0], u, before));
    }
  }

  /**
   Without a reconciliation of the user, the counters equal the rows at the end of a run if and
   only if every note of the user that it permanently deletes is empty when it goes.
   */
  lemma ExactIff(config: Config, steps: seq<Step>, userId: Id)
    requires QuietRun(config, NEW_DATABASE, steps)
    requires forall i :: 0 <= i < |steps| ==> !Reconciles(steps[i], userId)
    ensures Exceeds(Run(config, NEW_DATABASE, steps), userId, NOTHING) <==> DeletesEmpty(config, NEW_DATABASE, steps, userId)
  {
    hide Run, LedgerInv, QuietRun, LeftOver, ReservedSlack, UsedSlack, DeletesEmpty, Reconciles;
    NewDatabaseIsExact(config);
    RunExceeds(config, NEW_DATABASE, steps, userId, NOTHING);
    LeavesNothingRun(config, NEW_DATABASE, steps, userId, NOTHING);
  }

  /**
   With permanent deletions too, the counters never fall below the rows and never exceed the
   quota: every release and commit finds its bytes, so no subtraction is ever clamped.
   */
  lemma CountersCoverRows(config: Config, steps: seq<Step>, userId: Id)
    requires QuietRun(config, NEW_DATABASE, steps)
    ensures var w := Run(config, NEW_DATABASE, steps);
      && Balance(w.db.accounts, userId).reserved >= UploadBytes(w.db, userId) + InFlight(w, userId)
      && Balance(w.db.accounts, userId).used >= ManifestBytes(w.db, userId) + AttachmentBytes(w.db, userId)
      && Balance(w.db.accounts, userId).used + Balance(w.db.accounts, userId).reserved <= config.quota
  {
    hide Run, Inv, Linked, InFlight, UploadBytes, ManifestBytes, AttachmentBytes, QuietRun;
    NewDatabaseIsExact(config);
    RunKeepsLedger(config, NEW_DATABASE, steps);
    var w := Run(config, NEW_DATABASE, steps);
    assert 0 <= ReservedSlack(w, userId) && 0 <= UsedSlack(w, userId);
  }

  /** So a complete upload's commit is never refused for want of its own reservation, nor an attachment's. */
  lemma CommitNeverOverQuota(config: Config, w: World, uploadId: Id)
    requires LedgerInv(config, w) && uploadId in w.db.uploads && Reserves(w.db.uploads[uploadId].status)
    ensures CanPay(w.db.accounts, w.db.notes[w.db.uploads[uploadId].noteId].ownerUserId, w.db.uploads[uploadId].totalCipherBytes)
  {
    hide Covered, WithinQuota;
    var upload := w.db.uploads[uploadId];
    var owner := w.db.notes[upload.noteId].ownerUserId;
    ReservedSuffices(w, owner);
    UploadIsOk(w.db, uploadId);
    assert UploadWeight(w.db.notes, upload, owner) == upload.totalCipherBytes;
  }
}
