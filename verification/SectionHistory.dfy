/**
 The server's append-only log of encrypted section updates.

 Inline writes (`PostgresSectionHistoryRepository.persist`) and manifest commits share one
 sequence counter per section; a checkpoint deletes the prefix of the log it covers. Every
 database transaction is one step on a `Log`. An update's decrypted payload is a set of
 editing operations and payloads are merged by union, so the meaning of a log is the union
 of its surviving rows.
 */
module SectionHistory {
  import opened Basics

  type Op = nat

  datatype SectionRef = Root | Named(id: Id)

  /** The root section is stored under its note's own identifier. */
  function StorageSectionId(noteId: Id, sectionId: SectionRef): Id {
    if sectionId.Root? then noteId else sectionId.id
  }

  datatype Kind = Update | Checkpoint | RootUpdate

  datatype Role = Owner | Editor | Viewer

  datatype MemberStatus = Active | Invited | Revoked

  /** What the access query joins from the note and the caller's membership. */
  datatype Access = Access(
    ownerUserId: Id,
    cryptoOwnerId: Id,
    keyEpoch: nat,
    rotationFenced: bool,
    isDeleted: bool,
    role: Role,
    status: MemberStatus)

  predicate CanEdit(access: Option<Access>) {
    access.Some? && access.value.status.Active? && !access.value.role.Viewer?
  }

  /** An encrypted payload: its bytes, and the operations its key holders read from it. */
  datatype Payload = Payload(cipher: Bytes, nonce: Bytes, ops: set<Op>)

  datatype Header = Header(
    kind: Kind,
    updateId: Id,
    noteId: Id,
    sectionId: SectionRef,
    cryptoOwnerId: Id,
    expectedKeyEpoch: nat,
    checkpointSequenceCutoff: Option<nat>)

  datatype Section = Section(noteId: Id, createdEpoch: nat, currentSequence: nat, isDeleted: bool)

  /** A row of section_updates joined with its manifest, and the operations it carries. */
  datatype Row = Row(
    updateId: Id,
    noteId: Id,
    sectionId: Id,
    serverSequence: nat,
    cryptoOwnerId: Id,
    keyEpoch: nat,
    kind: Kind,
    checkpointSequenceCutoff: Option<nat>,
    inlineCipher: Option<Bytes>,
    nonce: Option<Bytes>,
    manifestId: Option<Id>,
    uploadId: Option<Id>,
    totalCipherBytes: Option<nat>,
    chunkCount: Option<nat>,
    manifestHash: Option<string>,
    ops: set<Op>)

  datatype Log = Log(sections: map<Id, Section>, updates: map<Id, Row>)

  datatype RejectCode = Forbidden | RotationPending | StaleEpoch

  datatype Outcome =
    | Inserted(serverSequence: nat)
    | AlreadyPresent(serverSequence: nat)
    | Rejected(code: RejectCode)

  /** One section's updates within one key epoch: the unit a reader pages through. */
  predicate InScope(row: Row, noteId: Id, sectionId: Id, epoch: nat) {
    row.noteId == noteId && row.sectionId == sectionId && row.keyEpoch == epoch
  }

  predicate SameScope(a: Row, b: Row) {
    InScope(a, b.noteId, b.sectionId, b.keyEpoch)
  }

  // ----- the transactions -----

  /** ensureSection: the root section's row is created on first use. */
  function EnsuredSections(log: Log, noteId: Id, sectionId: SectionRef, noteEpoch: nat): map<Id, Section> {
    if sectionId.Root? && noteId !in log.sections
    then log.sections[noteId := Section(noteId, noteEpoch, 0, false)]
    else log.sections
  }

  predicate Usable(sections: map<Id, Section>, stored: Id, noteId: Id, keyEpoch: nat) {
    && stored in sections
    && sections[stored].noteId == noteId
    && !sections[stored].isDeleted
    && sections[stored].createdEpoch <= keyEpoch
  }

  function MatchingUpdate(existing: Row, header: Header, stored: Id): Outcome {
    if existing.noteId == header.noteId && existing.sectionId == stored && existing.keyEpoch == header.expectedKeyEpoch
    then AlreadyPresent(existing.serverSequence)
    else Rejected(Forbidden)
  }

  /** The sequence up to which accepting this row deletes its scope's older rows. */
  function Cutoff(row: Row): nat {
    if row.kind.Checkpoint? && row.checkpointSequenceCutoff.Some? then row.checkpointSequenceCutoff.value else 0
  }

  predicate Compacted(earlier: Row, row: Row) {
    && 0 < Cutoff(row)
    && SameScope(earlier, row)
    && earlier.serverSequence <= Cutoff(row)
    && earlier.updateId != row.updateId
  }

  /** Both writers end alike: add the row, advance the section, delete what the row covers. */
  function Append(log: Log, row: Row): Log
    requires row.sectionId in log.sections
  {
    var rows := log.updates[row.updateId := row];
    Log(
      log.sections[row.sectionId := log.sections[row.sectionId].(currentSequence := row.serverSequence)],
      map id | id in rows && !Compacted(rows[id], row) :: rows[id])
  }

  /** What a manifest commit checks of the log before inserting its row (unique key included). */
  predicate ManifestAdmitted(log: Log, row: Row) {
    && row.sectionId in log.sections
    && log.sections[row.sectionId].noteId == row.noteId
    && !log.sections[row.sectionId].isDeleted
    && (row.kind.Checkpoint? ==>
          && row.checkpointSequenceCutoff.Some?
          && row.checkpointSequenceCutoff.value <= log.sections[row.sectionId].currentSequence)
    && row.serverSequence == log.sections[row.sectionId].currentSequence + 1
    && row.updateId !in log.updates
  }

  function InlineRow(header: Header, payload: Payload, sequence: nat): Row {
    Row(header.updateId, header.noteId, StorageSectionId(header.noteId, header.sectionId), sequence,
        header.cryptoOwnerId, header.expectedKeyEpoch, header.kind, header.checkpointSequenceCutoff,
        Some(payload.cipher), Some(payload.nonce), None, None, None, None, None, payload.ops)
  }

  /** The refusals decided before the section is looked up. */
  function Gate(session: bool, access: Option<Access>, header: Header): Option<RejectCode> {
    if !session || access.None? || !access.value.status.Active? || access.value.isDeleted then Some(Forbidden)
    else if access.value.rotationFenced then Some(RotationPending)
    else if access.value.keyEpoch != header.expectedKeyEpoch then Some(StaleEpoch)
    else if access.value.role.Viewer? || access.value.cryptoOwnerId != header.cryptoOwnerId then Some(Forbidden)
    else None
  }

  predicate CutoffRefused(header: Header, section: Section) {
    || header.kind.Checkpoint? != header.checkpointSequenceCutoff.Some?
    || (header.checkpointSequenceCutoff.Some? && header.checkpointSequenceCutoff.value > section.currentSequence)
  }

  function Persisted(log: Log, session: bool, access: Option<Access>, header: Header, payload: Payload): (Log, Outcome) {
    var gate := Gate(session, access, header);
    if gate.Some? then (log, Rejected(gate.value))
    else
      var stored := StorageSectionId(header.noteId, header.sectionId);
      var ensured := log.(sections := EnsuredSections(log, header.noteId, header.sectionId, access.value.keyEpoch));
      if !Usable(ensured.sections, stored, header.noteId, access.value.keyEpoch) then (ensured, Rejected(Forbidden))
      else
        var section := ensured.sections[stored];
        if CutoffRefused(header, section) then (ensured, Rejected(Forbidden))
        else if header.updateId in log.updates then
          (ensured, MatchingUpdate(log.updates[header.updateId], header, stored))
        else
          var next := section.currentSequence + 1;
          (Append(ensured, InlineRow(header, payload, next)), Inserted(next))
  }

  // ----- what a frame may do, and what its row holds -----

  /** An active owner or editor of a live, unfenced note, at its epoch and under its crypto owner. */
  predicate MayWrite(session: bool, access: Option<Access>, header: Header) {
    && session && access.Some?
    && access.value.status == Active && access.value.role in {Owner, Editor}
    && !access.value.isDeleted && !access.value.rotationFenced
    && access.value.keyEpoch == header.expectedKeyEpoch && access.value.cryptoOwnerId == header.cryptoOwnerId
  }

  /** The section is the note's and live, or is the root section on its first use; a cutoff comes with checkpoints alone and does not run ahead. */
  predicate SectionTakes(sections: map<Id, Section>, header: Header) {
    var stored := match header.sectionId { case Root => header.noteId case Named(id) => id };
    && (if stored in sections
        then sections[stored].noteId == header.noteId && !sections[stored].isDeleted && sections[stored].createdEpoch <= header.expectedKeyEpoch
        else header.sectionId == Root)
    && (header.kind == Checkpoint <==> header.checkpointSequenceCutoff.Some?)
    && (header.checkpointSequenceCutoff.Some? ==>
          header.checkpointSequenceCutoff.value <= if stored in sections then sections[stored].currentSequence else 0)
  }

  /** The row holds, column by column, what the frame said, and no manifest column. */
  predicate RowCarries(row: Row, header: Header, payload: Payload, sequence: nat) {
    && row.updateId == header.updateId
    && row.noteId == header.noteId
    && row.sectionId == (match header.sectionId { case Root => header.noteId case Named(id) => id })
    && row.serverSequence == sequence
    && row.cryptoOwnerId == header.cryptoOwnerId
    && row.keyEpoch == header.expectedKeyEpoch
    && row.kind == header.kind
    && row.checkpointSequenceCutoff == header.checkpointSequenceCutoff
    && row.inlineCipher == Some(payload.cipher)
    && row.nonce == Some(payload.nonce)
    && row.ops == payload.ops
    && row.manifestId == None && row.uploadId == None && row.totalCipherBytes == None
    && row.chunkCount == None && row.manifestHash == None
  }

  /** The row is in, numbered next in its section; of the others exactly those a checkpoint covers are gone. */
  predicate InsertedInto(before: Log, after: Log, header: Header, payload: Payload, sequence: nat) {
    var stored := match header.sectionId { case Root => header.noteId case Named(id) => id };
    && sequence == (if stored in before.sections then before.sections[stored].currentSequence else 0) + 1
    && stored in after.sections
    && (if stored in before.sections then after.sections[stored] == before.sections[stored].(currentSequence := sequence)
        else after.sections[stored] == Section(header.noteId, header.expectedKeyEpoch, sequence, false))
    && (forall other :: other in after.sections && other != stored ==> other in before.sections && after.sections[other] == before.sections[other])
    && (forall other :: other in before.sections ==> other in after.sections)
    && header.updateId !in before.updates && header.updateId in after.updates
    && RowCarries(after.updates[header.updateId], header, payload, sequence)
    && (forall id :: id in after.updates && id != header.updateId ==> id in before.updates && after.updates[id] == before.updates[id])
    && (forall id :: id in before.updates ==>
          (id !in after.updates <==>
            && header.kind == Checkpoint && header.checkpointSequenceCutoff.Some?
            && before.updates[id].noteId == header.noteId && before.updates[id].sectionId == stored
            && before.updates[id].keyEpoch == header.expectedKeyEpoch
            && before.updates[id].serverSequence <= header.checkpointSequenceCutoff.value
            && 0 < header.checkpointSequenceCutoff.value && before.updates[id].updateId != header.updateId))
  }

  /** What a frame is answered, from the access row, the section row and the rows already there. */
  predicate PersistAnswer(log: Log, session: bool, access: Option<Access>, header: Header, outcome: Outcome) {
    var live := session && access.Some? && access.value.status == Active && !access.value.isDeleted;
    var stored := match header.sectionId { case Root => header.noteId case Named(id) => id };
    var takes := MayWrite(session, access, header) && SectionTakes(log.sections, header);
    && (outcome.Inserted? <==> takes && header.updateId !in log.updates)
    && (outcome.AlreadyPresent? <==>
          && takes && header.updateId in log.updates
          && log.updates[header.updateId].noteId == header.noteId && log.updates[header.updateId].sectionId == stored
          && log.updates[header.updateId].keyEpoch == header.expectedKeyEpoch)
    && (outcome.AlreadyPresent? ==> outcome.serverSequence == log.updates[header.updateId].serverSequence)
    && (outcome == Rejected(RotationPending) <==> live && access.value.rotationFenced)
    && (outcome == Rejected(StaleEpoch) <==> live && !access.value.rotationFenced && access.value.keyEpoch != header.expectedKeyEpoch)
  }

  /** A frame that writes no row changes no row, and at most opens the note's root section. */
  predicate NothingInserted(before: Log, after: Log, header: Header) {
    && after.updates == before.updates
    && (forall id :: id in before.sections ==> id in after.sections && after.sections[id] == before.sections[id])
    && (forall id :: id in after.sections && id !in before.sections ==>
          header.sectionId == Root && id == header.noteId && after.sections[id] == Section(header.noteId, header.expectedKeyEpoch, 0, false))
  }

  lemma PersistedInserts(log: Log, session: bool, access: Option<Access>, header: Header, payload: Payload)
    ensures var (next, outcome) := Persisted(log, session, access, header, payload);
      && PersistAnswer(log, session, access, header, outcome)
      && (outcome.Inserted? ==> InsertedInto(log, next, header, payload, outcome.serverSequence))
      && (!outcome.Inserted? ==> NothingInserted(log, next, header))
  {
    hide Compacted;
    InsertedRows(log, session, access, header, payload);
  }

  lemma InsertedRows(log: Log, session: bool, access: Option<Access>, header: Header, payload: Payload)
    ensures var (next, outcome) := Persisted(log, session, access, header, payload);
      outcome.Inserted? ==> InsertedInto(log, next, header, payload, outcome.serverSequence)
  {
  }

  /** The log rows and the counter, as the transaction's statements change them. */
  class PostgresSectionHistory {
    var sections: map<Id, Section>
    var updates: map<Id, Row>

    function Db(): Log
      reads this
    {
      Log(sections, updates)
    }

    constructor ()
      ensures Db() == Log(map[], map[])
    {
      sections, updates := map[], map[];
    }

    method EnsureSection(noteId: Id, sectionId: SectionRef, noteEpoch: nat, keyEpoch: nat)
      returns (section: Option<Section>)
      modifies this`sections
      ensures sections == EnsuredSections(old(Db()), noteId, sectionId, noteEpoch)
      ensures section.Some? <==> Usable(sections, StorageSectionId(noteId, sectionId), noteId, keyEpoch)
      ensures section.Some? ==> section.value == sections[StorageSectionId(noteId, sectionId)]
      ensures section.Some? ==>
        section.value.noteId == noteId && !section.value.isDeleted && section.value.createdEpoch <= keyEpoch
      ensures match sectionId
        case Root =>
          && sections == (if noteId in old(sections) then old(sections) else old(sections)[noteId := Section(noteId, noteEpoch, 0, false)])
          && (section.Some? ==> section.value == sections[noteId])
          && (section.None? ==> sections[noteId].noteId != noteId || sections[noteId].isDeleted || sections[noteId].createdEpoch > keyEpoch)
        case Named(id) =>
          && sections == old(sections) && (section.Some? ==> id in sections && section.value == sections[id])
          && (section.None? ==>
                id !in sections || sections[id].noteId != noteId || sections[id].isDeleted || sections[id].createdEpoch > keyEpoch)
    {
      var stored := StorageSectionId(noteId, sectionId);
      if sectionId.Root? {
        if noteId !in sections {
          sections := sections[noteId := Section(noteId, noteEpoch, 0, false)];
        }
      }
      if stored !in sections || sections[stored].noteId != noteId {
        return None;
      }
      var found := sections[stored];
      if found.isDeleted || found.createdEpoch > keyEpoch {
        return None;
      }
      return Some(found);
    }

    method Persist(session: bool, access: Option<Access>, header: Header, payload: Payload)
      returns (outcome: Outcome)
      modifies this
      ensures (Db(), outcome) == Persisted(old(Db()), session, access, header, payload)
      ensures PersistAnswer(old(Db()), session, access, header, outcome)
      ensures outcome.Inserted? ==> InsertedInto(old(Db()), Db(), header, payload, outcome.serverSequence)
      ensures !outcome.Inserted? ==> NothingInserted(old(Db()), Db(), header)
    {
      hide PersistAnswer, InsertedInto, NothingInserted;
      PersistedInserts(Db(), session, access, header, payload);
      if !session || access.None? || !access.value.status.Active? || access.value.isDeleted {
        return Rejected(Forbidden);
      }
      var granted := access.value;
      if granted.rotationFenced {
        return Rejected(RotationPending);
      }
      if granted.keyEpoch != header.expectedKeyEpoch {
        return Rejected(StaleEpoch);
      }
      if granted.role.Viewer? || granted.cryptoOwnerId != header.cryptoOwnerId {
        return Rejected(Forbidden);
      }
      var found := EnsureSection(header.noteId, header.sectionId, granted.keyEpoch, granted.keyEpoch);
      if found.None? {
        return Rejected(Forbidden);
      }
      var section := found.value;
      var cutoff := header.checkpointSequenceCutoff;
      if header.kind.Checkpoint? != cutoff.Some? || (cutoff.Some? && cutoff.value > section.currentSequence) {
        return Rejected(Forbidden);
      }
      var stored := StorageSectionId(header.noteId, header.sectionId);
      if header.updateId in updates {
        return MatchingUpdate(updates[header.updateId], header, stored);
      }
      var next := section.currentSequence + 1;
      var row := InlineRow(header, payload, next);
      updates := updates[header.updateId := row];
      sections := sections[stored := section.(currentSequence := next)];
      if cutoff.Some? && cutoff.value > 0 {
        updates := map id | id in updates
          && !(updates[id].noteId == header.noteId && updates[id].sectionId == stored
               && updates[id].keyEpoch == header.expectedKeyEpoch
               && updates[id].serverSequence <= cutoff.value && updates[id].updateId != header.updateId)
          :: updates[id];
      }
      assert updates == Append(Log(old(sections)[stored := section], old(updates)), row).updates;
      return Inserted(next);
    }
  }
}
