/**
 What readers get of what writers sealed: the page after an insert starts with the sender's own
 cipher and nonce, and over every run no page shows anything an author did not seal.
 */
module HistoryDelivery {
  import opened Basics
  import opened SectionHistory
  import opened HistoryPages
  import opened HistoryReader
  import opened OutboxStore
  import opened OutboxDelivery

  /** The stored name of the section a frame is for. */
  function SectionOf(header: Header): Id {
    match header.sectionId
    case Root => header.noteId
    case Named(id) => id
  }

  /** The row numbered right after the cursor comes first in the selection. */
  lemma NextRowComesFirst(log: Log, scope: Scope, after: nat, limit: nat, rows: seq<Row>, id: Id)
    requires IsSelection(log, scope, after, limit, rows) && 0 < limit
    requires id in log.updates && RowIn(log.updates[id], scope) && log.updates[id].serverSequence == after + 1
    ensures rows != [] && rows[0] == log.updates[id]
  {
    var row := log.updates[id];
    assert Wanted(row, scope, after);
    if rows != [] {
      assert Wanted(rows[0], scope, after);
    }
    assert row in rows;
    var i :| 0 <= i < |rows| && rows[i] == row;
    assert i == 0;
  }

  /** So the first entry of any page above that cursor is that row's. */
  lemma NextRowIsFirstEntry(log: Log, scope: Scope, after: nat, maxItems: nat, maxBytes: nat, page: Page, id: Id)
    requires PageOf(log, scope, after, maxItems, maxBytes, page) && 0 < maxItems
    requires id in log.updates && RowIn(log.updates[id], scope) && log.updates[id].serverSequence == after + 1
    ensures page.entries != [] && Represents(page.entries[0], log.updates[id])
  {
    var rows: seq<Row> :| IsSelection(log, scope, after, maxItems + 1, rows) && IsPage(rows, after, maxItems, maxBytes, page);
    NextRowComesFirst(log, scope, after, maxItems + 1, rows, id);
  }

  /**
   After an insert, the page a reader lists from the sequence before it starts with an inline entry
   that carries exactly the sender's header fields, cipher, nonce and operations.
   */
  lemma InsertedIsFirstOnItsPage(log: Log, session: bool, access: Option<Access>, header: Header, payload: Payload, maxItems: nat,
      maxBytes: nat, page: Page)
    requires Persisted(log, session, access, header, payload).1.Inserted? && 0 < maxItems
    requires var (next, outcome) := Persisted(log, session, access, header, payload);
      PageOf(next, Scope(header.noteId, SectionOf(header), header.expectedKeyEpoch), outcome.serverSequence - 1, maxItems, maxBytes, page)
    ensures page.entries != []
    ensures page.entries[0] == InlineEntry(
      EntryBase(header.updateId, Persisted(log, session, access, header, payload).1.serverSequence, header.cryptoOwnerId,
                header.expectedKeyEpoch, header.kind, header.checkpointSequenceCutoff, payload.ops),
      payload.cipher, payload.nonce)
  {
    hide Persisted, IsSelection, IsPage, PersistAnswer;
    PersistedInserts(log, session, access, header, payload);
    var (next, outcome) := Persisted(log, session, access, header, payload);
    NextRowIsFirstEntry(next, Scope(header.noteId, SectionOf(header), header.expectedKeyEpoch), outcome.serverSequence - 1, maxItems,
                        maxBytes, page, header.updateId);
  }

  /** What an entry may show of an update its author sealed; an inline one shows exactly that cipher and nonce. */
  ghost predicate ShowsSealed(entry: Entry, update: Sealed) {
    && entry.base.updateId == update.header.updateId
    && entry.base.cryptoOwnerId == update.header.cryptoOwnerId
    && entry.base.keyEpoch == update.header.expectedKeyEpoch
    && entry.base.kind == update.header.kind
    && entry.base.checkpointSequenceCutoff == update.header.checkpointSequenceCutoff
    && entry.base.ops == update.payload.ops
    && (entry.InlineEntry? ==> entry.inlineCipher == update.payload.cipher && entry.nonce == update.payload.nonce)
  }

  /**
   Over every run of queues, lossy transports, other writers and crashes, every entry of every page
   shows an update as its author sealed it, and of the scope the page is for.
   */
  lemma EntriesAreSealed(userId: Id, steps: seq<OutboxDelivery.Step>, scope: Scope, after: nat, maxItems: nat, maxBytes: nat, page: Page, i: nat)
    requires OutboxDelivery.EnabledRun(Initial(userId), steps)
    requires PageOf(OutboxDelivery.Run(Initial(userId), steps).h.log, scope, after, maxItems, maxBytes, page) && i < |page.entries|
    ensures var w, entry := OutboxDelivery.Run(Initial(userId), steps), page.entries[i];
      && entry.base.updateId in w.registry && ShowsSealed(entry, w.registry[entry.base.updateId])
      && w.registry[entry.base.updateId].header.noteId == scope.noteId
      && SectionOf(w.registry[entry.base.updateId].header) == scope.sectionId
  {
    hide OutboxDelivery.EnabledRun, OutboxDelivery.Run;
    OutboxDelivery.RunKeepsInv(Initial(userId), steps);
    EntryIsSealed(OutboxDelivery.Run(Initial(userId), steps), scope, after, maxItems, maxBytes, page, i);
  }

  lemma EntryIsSealed(w: World, scope: Scope, after: nat, maxItems: nat, maxBytes: nat, page: Page, i: nat)
    requires OutboxDelivery.Inv(w) && PageOf(w.h.log, scope, after, maxItems, maxBytes, page) && i < |page.entries|
    ensures var entry := page.entries[i];
      && entry.base.updateId in w.registry && ShowsSealed(entry, w.registry[entry.base.updateId])
      && w.registry[entry.base.updateId].header.noteId == scope.noteId
      && SectionOf(w.registry[entry.base.updateId].header) == scope.sectionId
  {
    hide AcksOk, NothingLost, CheckpointsReady, PageBytes;
    var rows: seq<Row> :| IsSelection(w.h.log, scope, after, maxItems + 1, rows) && IsPage(rows, after, maxItems, maxBytes, page);
    assert Represents(page.entries[i], rows[i]) && Wanted(rows[i], scope, after);
    var id := rows[i].updateId;
    assert w.h.log.updates[id] == rows[i] && rows[i] in w.h.accepted;
    var j :| 0 <= j < |w.h.accepted| && w.h.accepted[j] == rows[i];
    assert RowOk(w.registry, w.h.accepted[j]);
  }
}
