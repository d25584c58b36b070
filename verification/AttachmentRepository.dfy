/**
 The other client of the storage account: attachment uploads reserve, then either commit or
 give back; deleting attachments and whole notes lowers usage.
 */
module AttachmentRepository {
  import opened Basics
  import opened Totals
  import opened SectionHistory
  import opened ContentStore
  import opened ContentRepositories
  import ContentTerms

  datatype ReserveOutcome = Held(ownerUserId: Id) | NotHeld(refusal: AttachmentRefusal)

  datatype AttachmentRefusal = Gate(gate: Refusal) | Duplicate | OverQuota

  datatype AttachmentOutcome = AttachmentStored | AttachmentRefused(refusal: AttachmentRefusal)

  function AttachmentGate(access: Option<Access>): Option<Refusal> {
    if !CanEdit(access) then Some(NotFound)
    else if access.value.isDeleted then Some(Conflict)
    else if access.value.rotationFenced then Some(Refusal.RotationPending)
    else None
  }

  function AttachmentReserved(db: Db, userId: Id, noteId: Id, attachmentId: Id, size: nat, expectedKeyEpoch: nat,
      quota: nat)
    : (Db, ReserveOutcome)
  {
    var access := AccessOf(db, noteId, userId);
    var gate := AttachmentGate(access);
    if gate.Some? then (db, NotHeld(Gate(gate.value)))
    else if access.value.keyEpoch != expectedKeyEpoch then (db, NotHeld(Gate(Refusal.StaleEpoch)))
    else if attachmentId in db.attachments then (db, NotHeld(Duplicate))
    else
      var (accounts, reserved) := Reserve(db.accounts, access.value.ownerUserId, size, quota);
      (db.(accounts := accounts), if reserved then Held(access.value.ownerUserId) else NotHeld(OverQuota))
  }

  function AttachmentCommitted(db: Db, session: bool, actorUserId: Id, noteId: Id, ownerUserId: Id,
      expectedKeyEpoch: nat,
                               attachmentId: Id, size: nat): (Db, AttachmentOutcome)
  {
    var access := AccessOf(db, noteId, actorUserId);
    var gate := AttachmentGate(access);
    if !session then (db, AttachmentRefused(Gate(Unauthorized)))
    else if gate.Some? then (db, AttachmentRefused(Gate(gate.value)))
    else if access.value.ownerUserId != ownerUserId || access.value.keyEpoch != expectedKeyEpoch then
      (db, AttachmentRefused(Gate(Refusal.StaleEpoch)))
    else if attachmentId in db.attachments then (db, AttachmentRefused(Duplicate))
    else if !CanPay(db.accounts, ownerUserId, size) then (db, AttachmentRefused(OverQuota))
    else
      (db.(attachments := db.attachments[attachmentId := Attachment(noteId, ownerUserId, size)],
           accounts := db.accounts[ownerUserId := Account(db.accounts[ownerUserId].used + size, db.accounts[ownerUserId].reserved - size)]),
       AttachmentStored)
  }

  function Lowered(accounts: map<Id, Account>, userId: Id, bytes: nat): map<Id, Account> {
    if userId !in accounts then accounts
    else accounts[userId := accounts[userId].(used := Max(accounts[userId].used - bytes, 0))]
  }

  predicate DeletesAttachment(db: Db, noteId: Id, attachmentId: Id, ownerUserId: Id) {
    && noteId in db.notes
    && attachmentId in db.attachments
    && db.attachments[attachmentId].noteId == noteId
    && db.attachments[attachmentId].ownerUserId == ownerUserId
  }

  function AttachmentDeleted(db: Db, noteId: Id, attachmentId: Id, ownerUserId: Id, size: nat): Db {
    if !DeletesAttachment(db, noteId, attachmentId, ownerUserId) then db
    else db.(attachments := db.attachments - {attachmentId}, accounts := Lowered(db.accounts, ownerUserId, size))
  }

  /** The bytes of a note's attachments that were charged to its owner. */
  function NoteAttachments(attachments: map<Id, Attachment>, noteId: Id, ownerUserId: Id): map<Id, nat> {
    map id | id in attachments ::
      if attachments[id].noteId == noteId && attachments[id].ownerUserId == ownerUserId then attachments[id].size else 0
  }

  // What the foreign keys on a note take along.

  function MembersWithout(members: map<MemberKey, Membership>, noteId: Id): map<MemberKey, Membership> {
    map key | key in members && key.noteId != noteId :: members[key]
  }

  function LogWithout(log: Log, noteId: Id): Log {
    Log(map id | id in log.sections && log.sections[id].noteId != noteId :: log.sections[id],
        map id | id in log.updates && log.updates[id].noteId != noteId :: log.updates[id])
  }

  function UploadsWithout(uploads: map<Id, Upload>, noteId: Id): map<Id, Upload> {
    map id | id in uploads && uploads[id].noteId != noteId :: uploads[id]
  }

  function ChunksWithout(chunks: map<Id, ChunkRows>, uploads: map<Id, Upload>, noteId: Id): map<Id, ChunkRows> {
    map id | id in chunks && id in uploads && uploads[id].noteId != noteId :: chunks[id]
  }

  function ManifestsWithout(manifests: map<Id, Manifest>, noteId: Id): map<Id, Manifest> {
    map id | id in manifests && manifests[id].noteId != noteId :: manifests[id]
  }

  function AttachmentsWithout(attachments: map<Id, Attachment>, noteId: Id): map<Id, Attachment> {
    map id | id in attachments && attachments[id].noteId != noteId :: attachments[id]
  }

  /** Everything that references the note goes with it. */
  function WithoutNote(db: Db, noteId: Id): Db {
    Db(db.notes - {noteId}, MembersWithout(db.members, noteId), LogWithout(db.log, noteId), UploadsWithout(db.uploads, noteId),
       ChunksWithout(db.chunks, db.uploads, noteId), ManifestsWithout(db.manifests, noteId),
       AttachmentsWithout(db.attachments, noteId), db.accounts)
  }

  /** Only attachment bytes are given back when a note goes. */
  ghost function NoteDeleted(db: Db, noteId: Id, ownerUserId: Id): Db {
    if !Owns(db.notes, noteId, ownerUserId) then db
    else WithoutNote(db, noteId).(accounts :=
      Lowered(db.accounts, ownerUserId, Total(NoteAttachments(db.attachments, noteId, ownerUserId))))
  }

  // ----- what each transaction may answer and leave, said on the rows -----

  /** Someone who may edit a writable note, for a new attachment that still fits the quota of its owner. */
  predicate MayHold(db: Db, userId: Id, noteId: Id, attachmentId: Id, size: nat, epoch: nat, quota: nat) {
    && ContentTerms.MayEdit(db, noteId, userId) && ContentTerms.Writable(db, noteId, epoch) && attachmentId !in db.attachments
    && ContentTerms.HasRoom(db.accounts, db.notes[noteId].ownerUserId, size, quota)
  }

  /** A hold is granted to someone who may edit a writable note, for a new attachment that still fits the quota. */
  predicate HoldAnswer(before: Db, userId: Id, noteId: Id, attachmentId: Id, size: nat, epoch: nat, quota: nat, after: Db,
      outcome: ReserveOutcome)
  {
    var admitted := ContentTerms.MayEdit(before, noteId, userId);
    var writable := admitted && ContentTerms.Writable(before, noteId, epoch);
    var free := attachmentId !in before.attachments;
    var room := admitted && ContentTerms.HasRoom(before.accounts, before.notes[noteId].ownerUserId, size, quota);
    && (outcome.Held? <==> writable && free && room)
    && (outcome == NotHeld(Gate(NotFound)) <==> !admitted)
    && (outcome == NotHeld(Gate(Conflict)) <==> admitted && ContentTerms.TurnedAway(before, noteId, epoch, Conflict))
    && (outcome == NotHeld(Gate(Refusal.RotationPending)) <==> admitted && ContentTerms.TurnedAway(before, noteId, epoch, Refusal.RotationPending))
    && (outcome == NotHeld(Gate(Refusal.StaleEpoch)) <==> admitted && ContentTerms.TurnedAway(before, noteId, epoch, Refusal.StaleEpoch))
    && (outcome == NotHeld(Duplicate) <==> writable && !free)
    && (outcome == NotHeld(OverQuota) <==> writable && free && !room)
    && after == before.(accounts := after.accounts)
    && (outcome.Held? ==>
          && outcome.ownerUserId == before.notes[noteId].ownerUserId && outcome.ownerUserId in after.accounts
          && ContentTerms.Shifts(before.accounts, after.accounts, outcome.ownerUserId, 0, size))
    && (!outcome.Held? ==> ContentTerms.CountersKept(before.accounts, after.accounts))
  }

  lemma HoldTerms(db: Db, userId: Id, noteId: Id, attachmentId: Id, size: nat, epoch: nat, quota: nat)
    ensures var (next, outcome) := AttachmentReserved(db, userId, noteId, attachmentId, size, epoch, quota);
      HoldAnswer(db, userId, noteId, attachmentId, size, epoch, quota, next, outcome)
  {
  }

  /** An attachment is stored for someone who may edit a writable note of the owner it was reserved for, once, with reserved bytes. */
  predicate AttachAnswer(before: Db, session: bool, actorUserId: Id, noteId: Id, ownerUserId: Id, epoch: nat, attachmentId: Id, size: nat,
      after: Db, outcome: AttachmentOutcome)
  {
    var admitted := session && ContentTerms.MayEdit(before, noteId, actorUserId);
    var current := admitted && ContentTerms.Writable(before, noteId, epoch) && before.notes[noteId].ownerUserId == ownerUserId;
    var free := attachmentId !in before.attachments;
    var paid := ownerUserId in before.accounts && size <= before.accounts[ownerUserId].reserved;
    && (outcome.AttachmentStored? <==> current && free && paid)
    && (outcome == AttachmentRefused(Gate(Unauthorized)) <==> !session)
    && (outcome == AttachmentRefused(Gate(NotFound)) <==> session && !admitted)
    && (outcome == AttachmentRefused(Gate(Conflict)) <==> admitted && before.notes[noteId].isDeleted)
    && (outcome == AttachmentRefused(Gate(Refusal.RotationPending)) <==>
          admitted && !before.notes[noteId].isDeleted && before.notes[noteId].rotationFenced)
    && (outcome == AttachmentRefused(Duplicate) <==> current && !free)
    && (outcome == AttachmentRefused(OverQuota) <==> current && free && !paid)
    && (!outcome.AttachmentStored? ==> after == before)
    && (outcome.AttachmentStored? ==>
          && after == before.(attachments := after.attachments, accounts := after.accounts)
          && attachmentId in after.attachments && after.attachments - {attachmentId} == before.attachments
          && after.attachments[attachmentId].noteId == noteId && after.attachments[attachmentId].ownerUserId == ownerUserId
          && after.attachments[attachmentId].size == size
          && ownerUserId in after.accounts && ContentTerms.Shifts(before.accounts, after.accounts, ownerUserId, size, -(size as int)))
  }

  lemma AttachTermsHold(db: Db, session: bool, actorUserId: Id, noteId: Id, ownerUserId: Id, epoch: nat, attachmentId: Id, size: nat)
    ensures var (next, outcome) := AttachmentCommitted(db, session, actorUserId, noteId, ownerUserId, epoch, attachmentId, size);
      AttachAnswer(db, session, actorUserId, noteId, ownerUserId, epoch, attachmentId, size, next, outcome)
  {
    if attachmentId !in db.attachments {
      assert db.attachments[attachmentId := Attachment(noteId, ownerUserId, size)] - {attachmentId} == db.attachments;
    }
  }

  /** Usage falls by these bytes, not below zero; nothing else about any account changes. */
  predicate UsageFalls(before: map<Id, Account>, after: map<Id, Account>, userId: Id, bytes: nat) {
    && after.Keys == before.Keys && after - {userId} == before - {userId}
    && (userId in before ==>
          && after[userId].reserved == before[userId].reserved
          && after[userId].used == if bytes <= before[userId].used then before[userId].used - bytes else 0)
  }

  predicate DetachAnswer(before: Db, noteId: Id, attachmentId: Id, ownerUserId: Id, size: nat, after: Db, deleted: bool) {
    && (deleted <==>
          && noteId in before.notes && attachmentId in before.attachments
          && before.attachments[attachmentId].noteId == noteId && before.attachments[attachmentId].ownerUserId == ownerUserId)
    && (!deleted ==> after == before)
    && (deleted ==>
          && after == before.(attachments := before.attachments - {attachmentId}, accounts := after.accounts)
          && UsageFalls(before.accounts, after.accounts, ownerUserId, size))
  }

  lemma DetachTerms(db: Db, noteId: Id, attachmentId: Id, ownerUserId: Id, size: nat)
    ensures DetachAnswer(db, noteId, attachmentId, ownerUserId, size, AttachmentDeleted(db, noteId, attachmentId, ownerUserId, size),
                         DeletesAttachment(db, noteId, attachmentId, ownerUserId))
  {
  }

  /** Every row of the note is gone from every table, and no other row. */
  predicate NoteRowsGone(before: Db, after: Db, noteId: Id) {
    && after.notes == before.notes - {noteId}
    && after.members == (map key | key in before.members && key.noteId != noteId :: before.members[key])
    && after.log.sections == (map id | id in before.log.sections && before.log.sections[id].noteId != noteId :: before.log.sections[id])
    && after.log.updates == (map id | id in before.log.updates && before.log.updates[id].noteId != noteId :: before.log.updates[id])
    && after.uploads == (map id | id in before.uploads && before.uploads[id].noteId != noteId :: before.uploads[id])
    && after.chunks == (map id | id in before.chunks && id in before.uploads && before.uploads[id].noteId != noteId :: before.chunks[id])
    && after.manifests == (map id | id in before.manifests && before.manifests[id].noteId != noteId :: before.manifests[id])
    && after.attachments == (map id | id in before.attachments && before.attachments[id].noteId != noteId :: before.attachments[id])
  }

  /** For each attachment of the note that was charged to its owner its size, and nothing for any other. */
  predicate Charged(bytes: map<Id, nat>, attachments: map<Id, Attachment>, noteId: Id, ownerUserId: Id) {
    && bytes.Keys == attachments.Keys
    && forall id :: id in attachments ==>
         bytes[id] == if attachments[id].noteId == noteId && attachments[id].ownerUserId == ownerUserId then attachments[id].size else 0
  }

  /** Only its owner deletes a note, and only the bytes of its attachments are given back. */
  ghost predicate DeletionAnswer(before: Db, noteId: Id, ownerUserId: Id, after: Db, deleted: bool) {
    && (deleted <==> noteId in before.notes && before.notes[noteId].ownerUserId == ownerUserId)
    && (!deleted ==> after == before)
    && (deleted ==>
          && NoteRowsGone(before, after, noteId)
          && exists bytes: map<Id, nat> :: Charged(bytes, before.attachments, noteId, ownerUserId)
               && UsageFalls(before.accounts, after.accounts, ownerUserId, Total(bytes)))
  }

  lemma DeletionTerms(db: Db, noteId: Id, ownerUserId: Id)
    ensures DeletionAnswer(db, noteId, ownerUserId, NoteDeleted(db, noteId, ownerUserId), Owns(db.notes, noteId, ownerUserId))
  {
    hide Total, NoteRowsGone, WithoutNote, NoteAttachments, Charged;
    if Owns(db.notes, noteId, ownerUserId) {
      NoteRowsGo(db, noteId, Lowered(db.accounts, ownerUserId, Total(NoteAttachments(db.attachments, noteId, ownerUserId))));
      ChargedToOwner(db, noteId, ownerUserId);
    }
  }

  lemma NoteRowsGo(db: Db, noteId: Id, accounts: map<Id, Account>)
    ensures NoteRowsGone(db, WithoutNote(db, noteId).(accounts := accounts), noteId)
    ensures WithoutNote(db, noteId).(accounts := accounts).accounts == accounts
  {
  }

  lemma ChargedToOwner(db: Db, noteId: Id, ownerUserId: Id)
    ensures Charged(NoteAttachments(db.attachments, noteId, ownerUserId), db.attachments, noteId, ownerUserId)
  {
  }

  class PostgresAttachmentMutations {
    const tables: PostgresContent

    constructor (tables: PostgresContent)
      ensures this.tables == tables
    {
      this.tables := tables;
    }

    method ReserveUpload(userId: Id, noteId: Id, attachmentId: Id, size: nat, expectedKeyEpoch: nat)
        returns (outcome: ReserveOutcome)
      modifies tables`accounts
      ensures (tables.Tables(), outcome)
        == AttachmentReserved(old(tables.Tables()), userId, noteId, attachmentId, size, expectedKeyEpoch, tables.quota)
      ensures HoldAnswer(old(tables.Tables()), userId, noteId, attachmentId, size, expectedKeyEpoch, tables.quota, tables.Tables(), outcome)
    {
      hide HoldAnswer;
      HoldTerms(tables.Tables(), userId, noteId, attachmentId, size, expectedKeyEpoch, tables.quota);
      var access := AccessOf(tables.Tables(), noteId, userId);
      var gate := AttachmentGate(access);
      if gate.Some? {
        return NotHeld(Gate(gate.value));
      }
      if access.value.keyEpoch != expectedKeyEpoch {
        return NotHeld(Gate(Refusal.StaleEpoch));
      }
      if attachmentId in tables.attachments {
        return NotHeld(Duplicate);
      }
      var reserved := tables.ReserveStorage(access.value.ownerUserId, size);
      return if reserved then Held(access.value.ownerUserId) else NotHeld(OverQuota);
    }

    method CommitUpload(session: bool, actorUserId: Id, noteId: Id, ownerUserId: Id, expectedKeyEpoch: nat,
        attachmentId: Id, size: nat)
      returns (outcome: AttachmentOutcome)
      modifies tables`accounts, tables`attachments
      ensures (tables.Tables(), outcome)
        == AttachmentCommitted(old(tables.Tables()), session, actorUserId, noteId, ownerUserId, expectedKeyEpoch, attachmentId, size)
      ensures AttachAnswer(old(tables.Tables()), session, actorUserId, noteId, ownerUserId, expectedKeyEpoch, attachmentId, size,
                           tables.Tables(), outcome)
    {
      hide AttachAnswer;
      AttachTermsHold(tables.Tables(), session, actorUserId, noteId, ownerUserId, expectedKeyEpoch, attachmentId, size);
      if !session {
        return AttachmentRefused(Gate(Unauthorized));
      }
      var access := AccessOf(tables.Tables(), noteId, actorUserId);
      var gate := AttachmentGate(access);
      if gate.Some? {
        return AttachmentRefused(Gate(gate.value));
      }
      if access.value.ownerUserId != ownerUserId || access.value.keyEpoch != expectedKeyEpoch {
        return AttachmentRefused(Gate(Refusal.StaleEpoch));
      }
      if attachmentId in tables.attachments {
        return AttachmentRefused(Duplicate);
      }
      if ownerUserId !in tables.accounts || tables.accounts[ownerUserId].reserved < size {
        return AttachmentRefused(OverQuota);
      }
      tables.attachments := tables.attachments[attachmentId := Attachment(noteId, ownerUserId, size)];
      var account := tables.accounts[ownerUserId];
      tables.accounts := tables.accounts[ownerUserId := Account(account.used + size, account.reserved - size)];
      return AttachmentStored;
    }

    method LowerUsage(userId: Id, bytes: nat)
      modifies tables`accounts
      ensures tables.accounts == Lowered(old(tables.accounts), userId, bytes)
    {
      if userId in tables.accounts {
        var account := tables.accounts[userId];
        tables.accounts := tables.accounts[userId := account.(used := if account.used >= bytes then account.used - bytes else 0)];
      }
    }

    method Delete(noteId: Id, attachmentId: Id, ownerUserId: Id, size: nat) returns (deleted: bool)
      modifies tables`accounts, tables`attachments
      ensures tables.Tables() == AttachmentDeleted(old(tables.Tables()), noteId, attachmentId, ownerUserId, size)
      ensures deleted <==> DeletesAttachment(old(tables.Tables()), noteId, attachmentId, ownerUserId)
      ensures DetachAnswer(old(tables.Tables()), noteId, attachmentId, ownerUserId, size, tables.Tables(), deleted)
    {
      hide DetachAnswer;
      DetachTerms(tables.Tables(), noteId, attachmentId, ownerUserId, size);
      if noteId !in tables.notes {
        return false;
      }
      if attachmentId !in tables.attachments || tables.attachments[attachmentId].noteId != noteId
         || tables.attachments[attachmentId].ownerUserId != ownerUserId {
        return false;
      }
      tables.attachments := tables.attachments - {attachmentId};
      LowerUsage(ownerUserId, size);
      return true;
    }

    method PermanentlyDelete(noteId: Id, ownerUserId: Id) returns (deleted: bool)
      modifies tables
      ensures tables.Tables() == NoteDeleted(old(tables.Tables()), noteId, ownerUserId)
      ensures deleted <==> Owns(old(tables.notes), noteId, ownerUserId)
      ensures DeletionAnswer(old(tables.Tables()), noteId, ownerUserId, tables.Tables(), deleted)
    {
      hide DeletionAnswer;
      DeletionTerms(tables.Tables(), noteId, ownerUserId);
      hide MembersWithout, LogWithout, UploadsWithout, ChunksWithout, ManifestsWithout, AttachmentsWithout, NoteAttachments;
      if !Owns(tables.notes, noteId, ownerUserId) {
        return false;
      }
      var bytes := Sum(NoteAttachments(tables.attachments, noteId, ownerUserId));
      var log := LogWithout(Log(tables.sections, tables.updates), noteId);
      tables.notes := tables.notes - {noteId};
      tables.members := MembersWithout(tables.members, noteId);
      tables.sections, tables.updates := log.sections, log.updates;
      tables.chunks := ChunksWithout(tables.chunks, tables.uploads, noteId);
      tables.uploads := UploadsWithout(tables.uploads, noteId);
      tables.manifests := ManifestsWithout(tables.manifests, noteId);
      tables.attachments := AttachmentsWithout(tables.attachments, noteId);
      LowerIfAny(ownerUserId, bytes);
      return true;
    }

    method LowerIfAny(userId: Id, bytes: nat)
      modifies tables`accounts
      ensures tables.accounts == Lowered(old(tables.accounts), userId, bytes)
    {
      if bytes > 0 {
        LowerUsage(userId, bytes);
      }
    }

    /**
     The upload handler when nothing else runs in between: the reservation ends either as usage
     or is given back once, however often cleanup is asked for. If the commit's reply is lost, the
     handler fails, the attachment is there, and its bytes are released although they were spent.
     */
    method UploadAttachment(session: bool, userId: Id, noteId: Id, attachmentId: Id, size: nat, expectedKeyEpoch: nat,
        written: bool, replyLost: bool)
      returns (status: nat)
      modifies tables`accounts, tables`attachments
      ensures status == 201 || status == 500 <==> tables.attachments != old(tables.attachments)
      ensures status == 201 <==> old(MayHold(tables.Tables(), userId, noteId, attachmentId, size, expectedKeyEpoch, tables.quota)) && written && session && !replyLost
      ensures status == 500 <==> old(MayHold(tables.Tables(), userId, noteId, attachmentId, size, expectedKeyEpoch, tables.quota)) && written && session && replyLost
      ensures status == 400 <==> old(MayHold(tables.Tables(), userId, noteId, attachmentId, size, expectedKeyEpoch, tables.quota)) && !written
      ensures status == 201 || status == 500 ==>
        && noteId in tables.notes
        && tables.attachments == old(tables.attachments)[attachmentId := Attachment(noteId, tables.notes[noteId].ownerUserId, size)]
      ensures status == 201 ==> Spent(old(tables.accounts), tables.accounts, tables.notes[noteId].ownerUserId, size)
      ensures status == 500 ==> ReleasedTwice(old(tables.accounts), tables.accounts, tables.notes[noteId].ownerUserId, size)
      ensures status != 201 && status != 500 ==> forall u :: Balance(tables.accounts, u) == Balance(old(tables.accounts), u)
    {
      hide AttachmentReserved, AttachmentCommitted, Release, Spent, ReleasedTwice, HoldAnswer, AttachAnswer, MayHold, Reserve;
      HoldMeansMay(tables.Tables(), userId, noteId, attachmentId, size, expectedKeyEpoch, tables.quota);
      ReservationTerms(tables.Tables(), userId, noteId, attachmentId, size, expectedKeyEpoch, tables.quota);
      var reservation := ReserveUpload(userId, noteId, attachmentId, size, expectedKeyEpoch);
      if reservation.NotHeld? {
        return 409;
      }
      ReleaseUndoesReserve(old(tables.accounts), reservation.ownerUserId, size, tables.quota);
      CommitTerms(tables.Tables(), session, userId, noteId, reservation.ownerUserId, expectedKeyEpoch, attachmentId, size);
      HeldIsStored(old(tables.Tables()), tables.Tables(), session, userId, noteId, attachmentId, size, expectedKeyEpoch, tables.quota);
      var committed, cleanup := false, false;
      status := 400;
      if written {
        var outcome := CommitUpload(session, userId, noteId, reservation.ownerUserId, expectedKeyEpoch, attachmentId, size);
        if outcome.AttachmentRefused? {
          cleanup := ReleaseOnce(cleanup, reservation.ownerUserId, size);
          status := 409;
        } else if replyLost {
          SpentThenReleased(old(tables.accounts), tables.accounts, reservation.ownerUserId, size);
          status := 500;
        } else {
          committed := true;
          status := 201;
        }
      } else {
        cleanup := ReleaseOnce(cleanup, reservation.ownerUserId, size);
      }
      if !committed {
        cleanup := ReleaseOnce(cleanup, reservation.ownerUserId, size);
      }
    }

    /** The memoised cleanup: only the first call releases. */
    method ReleaseOnce(cleanup: bool, ownerUserId: Id, size: nat) returns (done: bool)
      modifies tables`accounts
      ensures done
      ensures tables.accounts == if cleanup then old(tables.accounts) else Release(old(tables.accounts), ownerUserId, size)
    {
      if !cleanup {
        tables.ReleaseStorage(ownerUserId, size);
      }
      return true;
    }
  }

  lemma HoldMeansMay(db: Db, userId: Id, noteId: Id, attachmentId: Id, size: nat, epoch: nat, quota: nat)
    ensures AttachmentReserved(db, userId, noteId, attachmentId, size, epoch, quota).1.Held?
      <==> MayHold(db, userId, noteId, attachmentId, size, epoch, quota)
  {
    HoldTerms(db, userId, noteId, attachmentId, size, epoch, quota);
  }

  /** Right after its hold, an attachment is stored exactly if the session is still there. */
  lemma HeldIsStored(before: Db, held: Db, session: bool, userId: Id, noteId: Id, attachmentId: Id, size: nat, epoch: nat, quota: nat)
    requires noteId in before.notes
    requires (held, Held(before.notes[noteId].ownerUserId)) == AttachmentReserved(before, userId, noteId, attachmentId, size, epoch, quota)
    ensures var outcome := AttachmentCommitted(held, session, userId, noteId, before.notes[noteId].ownerUserId, epoch, attachmentId, size).1;
      outcome.AttachmentStored? <==> session
  {
  }

  /** The bytes became usage, and as many of the other reserved bytes as there are were given back. */
  ghost predicate ReleasedTwice(before: map<Id, Account>, after: map<Id, Account>, owner: Id, bytes: nat) {
    && Balance(after, owner).used == Balance(before, owner).used + bytes
    && Balance(after, owner).reserved == Balance(before, owner).reserved - Min(bytes, Balance(before, owner).reserved)
    && forall u :: u != owner ==> Balance(after, u) == Balance(before, u)
  }

  lemma SpentThenReleased(before: map<Id, Account>, spent: map<Id, Account>, owner: Id, bytes: nat)
    requires Spent(before, spent, owner, bytes)
    ensures ReleasedTwice(before, Release(spent, owner, bytes), owner, bytes)
  {
  }

  lemma ReservationTerms(db: Db, userId: Id, noteId: Id, attachmentId: Id, size: nat, expectedKeyEpoch: nat, quota: nat)
    ensures var (next, outcome) := AttachmentReserved(db, userId, noteId, attachmentId, size, expectedKeyEpoch, quota);
      && next == db.(accounts := next.accounts) && db.accounts.Keys <= next.accounts.Keys
      && (outcome.NotHeld? ==> forall u :: Balance(next.accounts, u) == Balance(db.accounts, u))
      && (outcome.Held? ==>
            && Owns(db.notes, noteId, outcome.ownerUserId) && attachmentId !in db.attachments
            && Reserve(db.accounts, outcome.ownerUserId, size, quota) == (next.accounts, true))
  {
  }

  lemma ReleaseUndoesReserve(accounts: map<Id, Account>, userId: Id, bytes: nat, quota: nat)
    requires Reserve(accounts, userId, bytes, quota).1
    ensures var held := Reserve(accounts, userId, bytes, quota).0;
      && (forall u :: Balance(Release(held, userId, bytes), u) == Balance(accounts, u))
      && CanPay(held, userId, bytes)
      && Spent(accounts, held[userId := Account(held[userId].used + bytes, held[userId].reserved - bytes)], userId, bytes)
  {
  }

  lemma CommitTerms(db: Db, session: bool, actorUserId: Id, noteId: Id, ownerUserId: Id, expectedKeyEpoch: nat,
      attachmentId: Id, size: nat)
    requires CanPay(db.accounts, ownerUserId, size)
    ensures var (next, outcome) := AttachmentCommitted(db, session, actorUserId, noteId, ownerUserId, expectedKeyEpoch, attachmentId, size);
      && (outcome.AttachmentRefused? ==> next == db)
      && (outcome.AttachmentStored? ==> next == db.(
            attachments := db.attachments[attachmentId := Attachment(noteId, ownerUserId, size)],
            accounts := db.accounts[ownerUserId := Account(db.accounts[ownerUserId].used + size, db.accounts[ownerUserId].reserved - size)]))
  {
  }

  /** A missing account row counts as empty. */
  function Balance(accounts: map<Id, Account>, userId: Id): Account {
    if userId in accounts then accounts[userId] else Account(0, 0)
  }

  /** Usage grew by the bytes for this user, and nothing else changed. */
  ghost predicate Spent(before: map<Id, Account>, after: map<Id, Account>, userId: Id, bytes: nat) {
    forall u :: Balance(after, u) == if u == userId then Account(Balance(before, u).used + bytes, Balance(before, u).reserved) else Balance(before, u)
  }
}
