/**
 End-to-end delivery of encrypted edits: durable outbox, lossy and duplicating transport,
 the server's log, and crashes at any point, including between the two transactions of an
 acknowledgement. Other devices write and compact at will.
 */
module OutboxDelivery {
  import opened Basics
  import opened SectionHistory
  import opened HistoryMeaning
  import opened OutboxStore
  import opened Outbox

  /** An update as its author sealed it; update ids are never reused for another payload. */
  datatype Sealed = Sealed(header: Header, payload: Payload)

  datatype Message =
    | Ack(updateId: Id, sectionId: SectionRef, keyEpoch: nat, serverSequence: nat)
    | Reject(updateId: Id, sectionId: SectionRef, reason: TerminalReason)

  /** `listed`, `acknowledging`, `dropping` and `terminal` live in memory only. */
  datatype World = World(
    userId: Id,
    h: History,
    registry: map<Id, Sealed>,
    store: Store,
    frames: set<Id>,
    messages: set<Message>,
    listed: set<OutboxRecord>,
    acknowledging: set<(OutboxKey, nat)>,
    dropping: set<OutboxKey>,
    terminal: map<Fence, TerminalReason>,
    enqueued: set<Id>,
    discarded: set<Id>)

  function KeyOf(userId: Id, header: Header): OutboxKey {
    OutboxKey(userId, header.noteId, header.sectionId, header.expectedKeyEpoch, header.updateId)
  }

  function FreshRecord(userId: Id, sealedUpdate: Sealed, now: nat): OutboxRecord {
    OutboxRecord(KeyOf(userId, sealedUpdate.header), sealedUpdate.header, sealedUpdate.payload, Queued, 0, None, None, now, now)
  }

  datatype Step =
    | EnqueueStep(update: Sealed, now: nat)            // this client seals an edit and queues it
    | OtherFrame(update: Sealed)                       // another client puts a frame on its wire
    | OtherManifest(row: Row)                          // someone commits an uploaded manifest
    | Sections(change: HistoryMeaning.Step)            // sections are ensured, created or deleted
    | ListFence(fence: Fence)                          // a flush lists a fence's records
    | MarkSending(record: OutboxRecord, now: nat)      // and rewrites one of them, however stale
    | Transmit(record: OutboxRecord)                   // and hands it to the transport
    | FlushAcknowledged(record: OutboxRecord)          // or finds its acknowledgement on disk
    | Lose(updateId: Id)                               // the transport drops a frame for good
    | Deliver(updateId: Id, session: bool, access: Option<Access>)  // a frame arrives, perhaps again
    | ReceiveAck(message: Message, key: OutboxKey)
    | WriteAck(key: OutboxKey, serverSequence: nat)    // first transaction of acknowledgeOutbox
    | DropRecord(key: OutboxKey)                       // second transaction
    | ReceiveReject(message: Message, key: OutboxKey, now: nat)
    | KeepDrafts(fence: Fence, reason: TerminalReason, now: nat)
    | DiscardFence(fence: Fence)                       // the user discards a draft
    | Clear(account: Id)
    | Crash

  function ReplyTo(header: Header, outcome: Outcome): set<Message> {
    match outcome
    case Inserted(sequence) => {Ack(header.updateId, header.sectionId, header.expectedKeyEpoch, sequence)}
    case AlreadyPresent(sequence) => {Ack(header.updateId, header.sectionId, header.expectedKeyEpoch, sequence)}
    case Rejected(Forbidden) => {Reject(header.updateId, header.sectionId, ForbiddenDraft)}
    case Rejected(StaleEpoch) => {Reject(header.updateId, header.sectionId, StaleEpochDraft)}
    case Rejected(RotationPending) => {}
  }

  function Rows(store: Store, fence: Fence): set<OutboxRecord> {
    set key | key in store.outbox && FenceOf(key) == fence :: store.outbox[key]
  }

  function Removed(before: Store, after: Store): set<Id> {
    set key | key in before.outbox && key !in after.outbox :: key.updateId
  }

  function Next(w: World, step: Step): World
    requires step.Deliver? ==> step.updateId in w.registry
  {
    match step
    case EnqueueStep(update, now) =>
      w.(registry := w.registry[update.header.updateId := update],
         store := PutOutbox(w.store, Enqueued(FreshRecord(w.userId, update, now), w.terminal, now)),
         enqueued := w.enqueued + {update.header.updateId})
    case OtherFrame(update) =>
      w.(registry := w.registry[update.header.updateId := update], frames := w.frames + {update.header.updateId})
    case OtherManifest(row) =>
      if !ManifestAdmitted(w.h.log, row) then w
      else w.(registry := w.registry[row.updateId := ManifestSeal(row)], h := Apply(w.h, CommitStep(row)))
    case Sections(change) => w.(h := Apply(w.h, change))
    case ListFence(fence) => w.(listed := w.listed + Rows(w.store, fence))
    case MarkSending(record, now) => w.(store := PutOutbox(w.store, Resent(record, now)))
    case Transmit(record) => w.(frames := w.frames + {record.key.updateId})
    case FlushAcknowledged(record) =>
      if record.key in w.store.acknowledgements
      then w.(acknowledging := w.acknowledging + {(record.key, w.store.acknowledgements[record.key])}) else w
    case Lose(updateId) => w.(frames := w.frames - {updateId})
    case Deliver(updateId, session, access) =>
      var update := w.registry[updateId];
      w.(h := Apply(w.h, PersistStep(session, access, update.header, update.payload)),
         messages := w.messages + ReplyTo(update.header, Persisted(w.h.log, session, access, update.header, update.payload).1))
    case ReceiveAck(message, key) =>
      if message.Ack? && key in w.store.outbox && key.userId == w.userId && key.updateId == message.updateId
         && key.sectionId == message.sectionId && key.keyEpoch == message.keyEpoch
      then w.(acknowledging := w.acknowledging + {(key, message.serverSequence)}) else w
    case WriteAck(key, serverSequence) =>
      w.(store := PutAcknowledgement(w.store, key, serverSequence), dropping := w.dropping + {key})
    case DropRecord(key) => w.(store := DropAcknowledged(w.store, key), dropping := w.dropping - {key})
    case ReceiveReject(message, key, now) =>
      if message.Reject? && key in w.store.outbox && key.userId == w.userId && key.updateId == message.updateId
         && key.sectionId == message.sectionId
      then w.(store := PreserveFence(w.store, FenceOf(key), message.reason, now),
              terminal := w.terminal[FenceOf(key) := message.reason]) else w
    case KeepDrafts(fence, reason, now) =>
      w.(store := PreserveFence(w.store, fence, reason, now), terminal := w.terminal[fence := reason])
    case DiscardFence(fence) =>
      w.(store := DeleteFence(w.store, fence), discarded := w.discarded + Removed(w.store, DeleteFence(w.store, fence)))
    case Clear(account) =>
      w.(store := ClearAccount(w.store, account), discarded := w.discarded + Removed(w.store, ClearAccount(w.store, account)))
    case Crash => w.(listed := {}, acknowledging := {}, dropping := {}, terminal := map[])
  }

  function ManifestSeal(row: Row): Sealed {
    Sealed(Header(row.kind, row.updateId, row.noteId, Named(row.sectionId), row.cryptoOwnerId, row.keyEpoch, row.checkpointSequenceCutoff),
           Payload([], [], row.ops))
  }

  /** A checkpoint is sealed only by a writer that already holds everything up to its cutoff. */
  ghost predicate Prepared(h: History, header: Header, ops: set<Op>) {
    header.kind.Checkpoint? && header.checkpointSequenceCutoff.Some? ==>
      var stored := StorageSectionId(header.noteId, header.sectionId);
      var cutoff := header.checkpointSequenceCutoff.value;
      && (cutoff == 0 || (stored in h.log.sections && cutoff <= h.log.sections[stored].currentSequence))
      && Covers(h.accepted, header.noteId, stored, header.expectedKeyEpoch, cutoff, ops)
  }

  ghost predicate Enabled(w: World, step: Step) {
    match step
    case EnqueueStep(update, _) => update.header.updateId !in w.registry && Prepared(w.h, update.header, update.payload.ops)
    case OtherFrame(update) => update.header.updateId !in w.registry && Prepared(w.h, update.header, update.payload.ops)
    case OtherManifest(row) => row.manifestId.Some? && row.updateId !in w.registry && (ManifestAdmitted(w.h.log, row) ==> RowCovers(w.h.accepted, row))
    case Sections(change) => change.EnsureStep? || change.CreateSectionStep? || change.DeleteSectionStep?
    case MarkSending(record, _) => record in w.listed && !record.state.TerminalRejected?
    case Transmit(record) => record in w.listed && !record.state.TerminalRejected?
    case FlushAcknowledged(record) => record in w.listed
    case Deliver(updateId, _, _) => updateId in w.frames && updateId in w.registry
    case ReceiveAck(message, _) => message in w.messages
    case ReceiveReject(message, _, _) => message in w.messages
    case WriteAck(key, serverSequence) => (key, serverSequence) in w.acknowledging
    case DropRecord(key) => key in w.dropping
    case _ => true
  }

  // ----- the invariant -----

  ghost predicate RecordOk(registry: map<Id, Sealed>, record: OutboxRecord) {
    && record.key.updateId in registry
    && Sealed(record.header, record.payload) == registry[record.key.updateId]
    && record.key == KeyOf(record.key.userId, record.header)
  }

  ghost predicate ClientOk(w: World) {
    && (forall id :: id in w.registry ==> w.registry[id].header.updateId == id)
    && (forall key :: key in w.store.outbox ==> w.store.outbox[key].key == key && RecordOk(w.registry, w.store.outbox[key]))
    && (forall record :: record in w.listed ==> RecordOk(w.registry, record))
    && (forall id :: id in w.frames ==> id in w.registry)
    && (forall id :: id in w.enqueued ==> id in w.registry)
  }

  /** A row is what its author sealed: whole, and an inline one with exactly that cipher and nonce. */
  ghost predicate RowOk(registry: map<Id, Sealed>, row: Row) {
    && row.updateId in registry
    && var header := registry[row.updateId].header;
    && row.ops == registry[row.updateId].payload.ops
    && InScope(row, header.noteId, StorageSectionId(header.noteId, header.sectionId), header.expectedKeyEpoch)
    && row.cryptoOwnerId == header.cryptoOwnerId && row.kind == header.kind
    && row.checkpointSequenceCutoff == header.checkpointSequenceCutoff
    && (row.manifestId.None? ==> RowCarries(row, header, registry[row.updateId].payload, row.serverSequence))
  }

  ghost predicate RowsOk(w: World) {
    forall i :: 0 <= i < |w.h.accepted| ==> RowOk(w.registry, w.h.accepted[i])
  }

  /** The server accepted this update under this sequence number. */
  ghost predicate AcceptedAt(h: History, id: Id, serverSequence: nat) {
    exists i :: 0 <= i < |h.accepted| && h.accepted[i].updateId == id && h.accepted[i].serverSequence == serverSequence
  }

  ghost predicate AcceptedId(h: History, id: Id) {
    exists i :: 0 <= i < |h.accepted| && h.accepted[i].updateId == id
  }

  ghost predicate AcksOk(w: World) {
    && (forall m :: m in w.messages && m.Ack? ==> AcceptedAt(w.h, m.updateId, m.serverSequence))
    && (forall key, sequence :: (key, sequence) in w.acknowledging ==> AcceptedAt(w.h, key.updateId, sequence))
    && (forall key :: key in w.store.acknowledgements ==> AcceptedAt(w.h, key.updateId, w.store.acknowledgements[key]))
    && (forall key :: key in w.dropping ==> AcceptedId(w.h, key.updateId))
  }

  ghost predicate Safe(w: World, id: Id) {
    || id in w.discarded
    || AcceptedId(w.h, id)
    || (id in w.registry && KeyOf(w.userId, w.registry[id].header) in w.store.outbox)
  }

  ghost predicate NothingLost(w: World) {
    forall id :: id in w.enqueued ==> Safe(w, id)
  }

  ghost predicate CheckpointsReady(w: World) {
    forall id :: id in w.registry ==> Prepared(w.h, w.registry[id].header, w.registry[id].payload.ops)
  }

  ghost predicate Inv(w: World) {
    Valid(w.h) && ClientOk(w) && RowsOk(w) && AcksOk(w) && NothingLost(w) && CheckpointsReady(w)
  }

  // ----- server-side growth -----

  lemma LaterKeepsAcks(w: World, next: World)
    requires AcksOk(w) && w.h.accepted <= next.h.accepted
    requires next.messages == w.messages && next.acknowledging == w.acknowledging && next.dropping == w.dropping
    requires next.store == w.store
    ensures AcksOk(next)
  {
    forall id, sequence | AcceptedAt(w.h, id, sequence) ensures AcceptedAt(next.h, id, sequence) {
      var i :| 0 <= i < |w.h.accepted| && w.h.accepted[i].updateId == id && w.h.accepted[i].serverSequence == sequence;
      assert next.h.accepted[i] == w.h.accepted[i];
    }
    LaterKeepsIds(w.h, next.h);
  }

  lemma LaterKeepsIds(h: History, next: History)
    requires h.accepted <= next.accepted
    ensures forall id :: AcceptedId(h, id) ==> AcceptedId(next, id)
  {
    forall id | AcceptedId(h, id) ensures AcceptedId(next, id) {
      var i :| 0 <= i < |h.accepted| && h.accepted[i].updateId == id;
      assert next.accepted[i] == h.accepted[i];
    }
  }

  lemma PreparedIsStable(h: History, step: HistoryMeaning.Step, header: Header, ops: set<Op>)
    requires Valid(h) && Honest(h, step) && Prepared(h, header, ops)
    ensures Prepared(Apply(h, step), header, ops)
  {
    if header.kind.Checkpoint? && header.checkpointSequenceCutoff.Some? {
      var stored := StorageSectionId(header.noteId, header.sectionId);
      ObligationIsStable(h, step, header.noteId, stored, header.expectedKeyEpoch, header.checkpointSequenceCutoff.value, ops);
      StepIsLater(h, step);
    }
  }

  /** A sealed checkpoint meets its obligation at whatever moment it is accepted. */
  lemma PreparedIsHonest(h: History, session: bool, access: Option<Access>, header: Header, payload: Payload)
    requires Valid(h) && Prepared(h, header, payload.ops)
    ensures Honest(h, PersistStep(session, access, header, payload))
  {
  }

  lemma HistoryMoves(w: World, step: HistoryMeaning.Step)
    requires Valid(w.h) && AcksOk(w) && NothingLost(w) && CheckpointsReady(w) && Honest(w.h, step)
    ensures var next := w.(h := Apply(w.h, step));
      Valid(next.h) && AcksOk(next) && NothingLost(next) && CheckpointsReady(next)
  {
    var next := w.(h := Apply(w.h, step));
    StepKeepsValid(w.h, step);
    StepIsLater(w.h, step);
    LaterKeepsAcks(w, next);
    LaterKeepsIds(w.h, next.h);
    forall id | id in next.registry ensures Prepared(next.h, next.registry[id].header, next.registry[id].payload.ops) {
      PreparedIsStable(w.h, step, w.registry[id].header, w.registry[id].payload.ops);
    }
  }

  lemma DeliverKeepsInv(w: World, updateId: Id, session: bool, access: Option<Access>)
    requires Inv(w) && Enabled(w, Deliver(updateId, session, access))
    ensures Inv(Next(w, Deliver(updateId, session, access)))
  {
    var next := Next(w, Deliver(updateId, session, access));
    var update := w.registry[updateId];
    var persist := PersistStep(session, access, update.header, update.payload);
    PreparedIsHonest(w.h, session, access, update.header, update.payload);
    HistoryMoves(w, persist);
    var (_, outcome) := Persisted(w.h.log, session, access, update.header, update.payload);
    forall i | 0 <= i < |next.h.accepted| ensures RowOk(next.registry, next.h.accepted[i]) {
      if i < |w.h.accepted| {
        assert next.h.accepted[i] == w.h.accepted[i];
      }
    }
    if !outcome.Rejected? {
      ReplyIsTrue(w.h, session, access, update.header, update.payload);
    }
  }

  /** Both kinds of acknowledgement name a sequence the update was accepted at. */
  lemma ReplyIsTrue(h: History, session: bool, access: Option<Access>, header: Header, payload: Payload)
    requires Valid(h)
    ensures var outcome := Persisted(h.log, session, access, header, payload).1;
      !outcome.Rejected? ==>
        AcceptedAt(Apply(h, PersistStep(session, access, header, payload)), header.updateId, outcome.serverSequence)
  {
    var outcome := Persisted(h.log, session, access, header, payload).1;
    var next := Apply(h, PersistStep(session, access, header, payload));
    if outcome.Inserted? {
      assert next.accepted[|h.accepted|].updateId == header.updateId;
    } else if outcome.AlreadyPresent? {
      assert h.log.updates[header.updateId] in h.accepted;
    }
  }

  lemma ManifestKeepsInv(w: World, row: Row)
    requires Inv(w) && Enabled(w, OtherManifest(row))
    ensures Inv(Next(w, OtherManifest(row)))
  {
    if ManifestAdmitted(w.h.log, row) {
      var sealedUpdate := ManifestSeal(row);
      var registered := w.(registry := w.registry[row.updateId := sealedUpdate]);
      RegisterKeepsInv(w, sealedUpdate);
      HistoryMoves(registered, CommitStep(row));
      var next := Next(w, OtherManifest(row));
      forall i | 0 <= i < |next.h.accepted| ensures RowOk(next.registry, next.h.accepted[i]) {
        if i < |w.h.accepted| {
          assert next.h.accepted[i] == w.h.accepted[i];
        }
      }
    }
  }

  lemma RegisterKeepsInv(w: World, update: Sealed)
    requires Inv(w) && update.header.updateId !in w.registry && Prepared(w.h, update.header, update.payload.ops)
    ensures Inv(w.(registry := w.registry[update.header.updateId := update]))
  {
  }

  lemma EnqueueKeepsInv(w: World, update: Sealed, now: nat)
    requires Inv(w) && Enabled(w, EnqueueStep(update, now))
    ensures Inv(Next(w, EnqueueStep(update, now)))
  {
    RegisterKeepsInv(w, update);
  }

  predicate FlushStep(step: Step) {
    step.ListFence? || step.MarkSending? || step.Transmit? || step.Lose? || step.FlushAcknowledged?
  }

  predicate AckStep(step: Step) {
    step.ReceiveAck? || step.WriteAck? || step.DropRecord?
  }

  predicate DraftStep(step: Step) {
    step.ReceiveReject? || step.KeepDrafts?
  }

  predicate ForgetStep(step: Step) {
    step.DiscardFence? || step.Clear? || step.Crash?
  }

  /** A flush works from a stale listing; it may bring a record back but never removes one. */
  lemma FlushKeepsInv(w: World, step: Step)
    requires Inv(w) && Enabled(w, step) && FlushStep(step)
    ensures Inv(Next(w, step))
  {
    hide Valid, Prepared, RowOk;
    if step.MarkSending? {
      PutKeepsInv(w, Resent(step.record, step.now));
    }
  }

  lemma PutKeepsInv(w: World, record: OutboxRecord)
    requires Inv(w) && RecordOk(w.registry, record)
    ensures Inv(w.(store := PutOutbox(w.store, record)))
  {
    hide Valid, Prepared, RowOk;
  }

  /** Only an accepted update's record is dropped, even if the tab dies between the transactions. */
  lemma AckKeepsInv(w: World, step: Step)
    requires Inv(w) && Enabled(w, step) && AckStep(step)
    ensures Inv(Next(w, step))
  {
    hide Valid, Prepared;
    if step.WriteAck? {
      AtIsId(w.h, step.key.updateId, step.serverSequence);
    }
  }

  /** Records may change their delivery state, but neither their key nor what they carry. */
  ghost predicate SameEdits(before: Store, after: Store) {
    && after.acknowledgements == before.acknowledgements
    && after.outbox.Keys == before.outbox.Keys
    && (forall key :: key in before.outbox ==>
          && after.outbox[key].key == before.outbox[key].key
          && after.outbox[key].header == before.outbox[key].header
          && after.outbox[key].payload == before.outbox[key].payload)
  }

  lemma SameEditsKeepInv(w: World, store: Store, terminal: map<Fence, TerminalReason>)
    requires Inv(w) && SameEdits(w.store, store)
    ensures Inv(w.(store := store, terminal := terminal))
  {
    hide Valid, Prepared, RowOk;
  }

  lemma DraftsAreSameEdits(store: Store, fence: Fence, reason: TerminalReason, now: nat)
    ensures SameEdits(store, PreserveFence(store, fence, reason, now))
  {
  }

  /** A terminal rejection turns records into drafts; none disappears. */
  lemma DraftKeepsInv(w: World, step: Step)
    requires Inv(w) && Enabled(w, step) && DraftStep(step)
    ensures Inv(Next(w, step))
  {
    hide Inv, PreserveFence, SameEdits;
    if step.KeepDrafts? {
      DraftsAreSameEdits(w.store, step.fence, step.reason, step.now);
      SameEditsKeepInv(w, PreserveFence(w.store, step.fence, step.reason, step.now), w.terminal[step.fence := step.reason]);
    } else if step.message.Reject? {
      var fence := FenceOf(step.key);
      DraftsAreSameEdits(w.store, fence, step.message.reason, step.now);
      SameEditsKeepInv(w, PreserveFence(w.store, fence, step.message.reason, step.now), w.terminal[fence := step.message.reason]);
    }
  }

  /** Removals by the user are recorded as such; a crash forgets memory, not disk. */
  lemma ForgetKeepsInv(w: World, step: Step)
    requires Inv(w) && Enabled(w, step) && ForgetStep(step)
    ensures Inv(Next(w, step))
  {
    hide Valid, Prepared, RowOk;
  }

  lemma FrameKeepsInv(w: World, update: Sealed)
    requires Inv(w) && Enabled(w, OtherFrame(update))
    ensures Inv(Next(w, OtherFrame(update)))
  {
    RegisterKeepsInv(w, update);
  }

  lemma SectionsKeepInv(w: World, change: HistoryMeaning.Step)
    requires Inv(w) && Enabled(w, Sections(change))
    ensures Inv(Next(w, Sections(change)))
  {
    HistoryMoves(w, change);
  }

  lemma AtIsId(h: History, id: Id, serverSequence: nat)
    requires AcceptedAt(h, id, serverSequence)
    ensures AcceptedId(h, id)
  {
  }

  lemma StepKeepsInv(w: World, step: Step)
    requires Inv(w) && Enabled(w, step)
    ensures Inv(Next(w, step))
  {
    hide Inv;
    match step
    case EnqueueStep(update, now) => EnqueueKeepsInv(w, update, now);
    case OtherFrame(update) => FrameKeepsInv(w, update);
    case OtherManifest(row) => ManifestKeepsInv(w, row);
    case Sections(change) => SectionsKeepInv(w, change);
    case Deliver(updateId, session, access) => DeliverKeepsInv(w, updateId, session, access);
    case _ =>
      if FlushStep(step) {
        FlushKeepsInv(w, step);
      } else if AckStep(step) {
        AckKeepsInv(w, step);
      } else if DraftStep(step) {
        DraftKeepsInv(w, step);
      } else {
        ForgetKeepsInv(w, step);
      }
  }

  // ----- whole runs -----

  ghost predicate EnabledRun(w: World, steps: seq<Step>)
    decreases |steps|
  {
    steps == [] || (Enabled(w, steps[0]) && EnabledRun(Next(w, steps[0]), steps[1..]))
  }

  ghost function Run(w: World, steps: seq<Step>): World
    requires EnabledRun(w, steps)
    decreases |steps|
  {
    if steps == [] then w else Run(Next(w, steps[0]), steps[1..])
  }

  function Initial(userId: Id): World {
    World(userId, EMPTY, map[], Store(map[], map[]), {}, {}, {}, {}, {}, map[], {}, {})
  }

  lemma {:induction false} RunKeepsInv(w: World, steps: seq<Step>)
    requires Inv(w) && EnabledRun(w, steps)
    ensures Inv(Run(w, steps))
    decreases |steps|
  {
    if steps != [] {
      StepKeepsInv(w, steps[0]);
      RunKeepsInv(Next(w, steps[0]), steps[1..]);
    }
  }

  /**
   Over every run, an edit that was queued and not discarded by the user is still in the
   outbox or was accepted by the server; and every acknowledgement on disk names a sequence
   at which the server accepted that update.
   */
  lemma NoEditIsLost(userId: Id, steps: seq<Step>)
    requires EnabledRun(Initial(userId), steps)
    ensures var w := Run(Initial(userId), steps);
      && (forall id :: id in w.enqueued && id !in w.discarded && !AcceptedId(w.h, id) ==>
            id in w.registry && KeyOf(userId, w.registry[id].header) in w.store.outbox)
      && (forall key :: key in w.store.acknowledgements ==> AcceptedAt(w.h, key.updateId, w.store.acknowledgements[key]))
  {
    RunKeepsInv(Initial(userId), steps);
    RunKeepsUser(Initial(userId), steps);
  }

  lemma {:induction false} RunKeepsUser(w: World, steps: seq<Step>)
    requires EnabledRun(w, steps)
    ensures Run(w, steps).userId == w.userId
    decreases |steps|
  {
    if steps != [] {
      RunKeepsUser(Next(w, steps[0]), steps[1..]);
    }
  }

  /**
   What has left the outbox is readable: the operations of such an edit are in the surviving
   rows of its section and epoch, however much was compacted since.
   */
  lemma DeliveredEditsAreReadable(userId: Id, steps: seq<Step>, id: Id)
    requires EnabledRun(Initial(userId), steps)
    requires var w := Run(Initial(userId), steps);
      && id in w.enqueued && id !in w.discarded && id in w.registry
      && KeyOf(userId, w.registry[id].header) !in w.store.outbox
    ensures var w := Run(Initial(userId), steps);
      var header := w.registry[id].header;
      w.registry[id].payload.ops
        <= Meaning(w.h.log, header.noteId, StorageSectionId(header.noteId, header.sectionId), header.expectedKeyEpoch)
  {
    NoEditIsLost(userId, steps);
    RunKeepsInv(Initial(userId), steps);
    AcceptedIsReadable(Run(Initial(userId), steps), id);
  }

  lemma AcceptedIsReadable(w: World, id: Id)
    requires Valid(w.h) && RowsOk(w) && AcceptedId(w.h, id) && id in w.registry
    ensures var header := w.registry[id].header;
      w.registry[id].payload.ops
        <= Meaning(w.h.log, header.noteId, StorageSectionId(header.noteId, header.sectionId), header.expectedKeyEpoch)
  {
    var header := w.registry[id].header;
    ValidPreservesMeaning(w.h, header.noteId, StorageSectionId(header.noteId, header.sectionId), header.expectedKeyEpoch);
    var i :| 0 <= i < |w.h.accepted| && w.h.accepted[i].updateId == id;
    assert RowOk(w.registry, w.h.accepted[i]);
  }
}
