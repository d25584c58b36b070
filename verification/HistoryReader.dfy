/**
 A client paging through one section and epoch while writers insert, commit manifests and
 compact: once a page says nothing more follows, the client holds everything accepted.
 */
module HistoryReader {
  import opened Basics
  import opened SectionHistory
  import opened HistoryPages
  import opened HistoryMeaning

  datatype Scope = Scope(noteId: Id, sectionId: Id, epoch: nat)

  predicate RowIn(row: Row, scope: Scope) {
    InScope(row, scope.noteId, scope.sectionId, scope.epoch)
  }

  predicate Wanted(row: Row, scope: Scope, after: nat) {
    RowIn(row, scope) && row.serverSequence > after
  }

  ghost predicate Ascending(rows: seq<Row>) {
    forall i, j :: 0 <= i < j < |rows| ==> rows[i].serverSequence < rows[j].serverSequence
  }

  /** The ordered, limited answer of the history query. */
  ghost predicate IsSelection(log: Log, scope: Scope, after: nat, limit: nat, rows: seq<Row>) {
    && |rows| <= limit
    && Ascending(rows)
    && (forall i :: 0 <= i < |rows| ==> rows[i].updateId in log.updates && log.updates[rows[i].updateId] == rows[i])
    && (forall i :: 0 <= i < |rows| ==> Wanted(rows[i], scope, after))
    && (forall id :: id in log.updates && Wanted(log.updates[id], scope, after) ==>
          || log.updates[id] in rows
          || (|rows| == limit && forall i :: 0 <= i < |rows| ==> rows[i].serverSequence < log.updates[id].serverSequence))
  }

  /** What the schema's keys promise about a log. */
  ghost predicate Indexed(log: Log) {
    && (forall id :: id in log.updates ==>
          && log.updates[id].updateId == id
          && log.updates[id].sectionId in log.sections
          && log.updates[id].serverSequence <= log.sections[log.updates[id].sectionId].currentSequence)
    && (forall a, b :: SamePlace(log, a, b) ==> a == b)
  }

  predicate SamePlace(log: Log, a: Id, b: Id) {
    && a in log.updates && b in log.updates
    && SameScope(log.updates[a], log.updates[b])
    && log.updates[a].serverSequence == log.updates[b].serverSequence
  }

  lemma ValidIsIndexed(h: History)
    requires Valid(h)
    ensures Indexed(h.log)
  {
    forall a, b | SamePlace(h.log, a, b)
      ensures a == b
    {
      var i :| 0 <= i < |h.accepted| && h.accepted[i] == h.log.updates[a];
      var j :| 0 <= j < |h.accepted| && h.accepted[j] == h.log.updates[b];
      assert i == j;
    }
  }

  predicate At(log: Log, scope: Scope, sequence: nat, id: Id) {
    id in log.updates && RowIn(log.updates[id], scope) && log.updates[id].serverSequence == sequence
  }

  method RowAt(log: Log, scope: Scope, sequence: nat) returns (row: Option<Row>)
    requires Indexed(log)
    ensures row.Some? ==> At(log, scope, sequence, row.value.updateId) && log.updates[row.value.updateId] == row.value
    ensures forall id :: At(log, scope, sequence, id) ==> row == Some(log.updates[id])
  {
    var here := set id | id in log.updates && At(log, scope, sequence, id);
    if here == {} {
      assert forall id :: At(log, scope, sequence, id) ==> id in here;
      return None;
    }
    var id :| id in here;
    forall other | At(log, scope, sequence, other) ensures other == id { assert SamePlace(log, other, id); }
    return Some(log.updates[id]);
  }

  method SelectRows(log: Log, scope: Scope, after: nat, limit: nat) returns (rows: seq<Row>)
    requires Indexed(log)
    ensures IsSelection(log, scope, after, limit, rows)
  {
    rows := [];
    if scope.sectionId !in log.sections {
      return;
    }
    var sequence := after + 1;
    var last := log.sections[scope.sectionId].currentSequence;
    while sequence <= last && |rows| < limit
      invariant after < sequence
      invariant |rows| <= limit && Ascending(rows)
      invariant forall i :: 0 <= i < |rows| ==>
        && rows[i].updateId in log.updates && log.updates[rows[i].updateId] == rows[i]
        && Wanted(rows[i], scope, after) && rows[i].serverSequence < sequence
      invariant forall id :: id in log.updates && Wanted(log.updates[id], scope, after) ==>
        log.updates[id] in rows || log.updates[id].serverSequence >= sequence
    {
      var row := RowAt(log, scope, sequence);
      assert forall id :: id in log.updates && Wanted(log.updates[id], scope, after) ==>
        At(log, scope, sequence, id) || log.updates[id].serverSequence != sequence;
      if row.Some? {
        assert row.value in rows + [row.value];
        rows := rows + [row.value];
      }
      sequence := sequence + 1;
    }
  }

  /** The `list` transaction: ensure the section, select one row more than a page, paginate. */
  method List(history: PostgresSectionHistory, noteId: Id, sectionId: SectionRef, noteEpoch: nat, keyEpoch: nat,
              after: nat, maxItems: nat, maxBytes: nat)
    returns (page: Option<Result<Page>>)
    requires Indexed(history.Db())
    modifies history
    ensures history.sections == EnsuredSections(old(history.Db()), noteId, sectionId, noteEpoch)
    ensures history.updates == old(history.updates)
    ensures page.Some? <==> Usable(history.sections, StorageSectionId(noteId, sectionId), noteId, keyEpoch)
    ensures page.Some? && page.value.Ok? ==>
      PageOf(history.Db(), Scope(noteId, StorageSectionId(noteId, sectionId), keyEpoch), after, maxItems, maxBytes, page.value.value)
  {
    var section := history.EnsureSection(noteId, sectionId, noteEpoch, keyEpoch);
    if section.None? {
      return None;
    }
    assert forall a, b :: SamePlace(history.Db(), a, b) ==> SamePlace(old(history.Db()), a, b);
    var rows := SelectRows(history.Db(), Scope(noteId, StorageSectionId(noteId, sectionId), keyEpoch), after, maxItems + 1);
    var result := PaginateHistory(rows, after, maxItems, maxBytes);
    page := Some(result);
  }

  /** The pages the server may answer with. */
  ghost predicate PageOf(log: Log, scope: Scope, after: nat, maxItems: nat, maxBytes: nat, page: Page) {
    exists rows :: IsSelection(log, scope, after, maxItems + 1, rows) && IsPage(rows, after, maxItems, maxBytes, page)
  }

  // ----- the reader -----

  /** `complete` is the negation of the last page's `hasMore`. */
  datatype Reader = Reader(cursor: nat, received: set<Op>, complete: bool)

  datatype State = State(h: History, reader: Reader)

  datatype Event =
    | Write(step: Step)
    | Read(maxItems: nat, maxBytes: nat, page: Page)

  ghost function Contents(entries: seq<Entry>): set<Op> {
    set i, op | 0 <= i < |entries| && op in entries[i].base.ops :: op
  }

  ghost function Next(s: State, event: Event): State {
    match event
    case Write(step) => s.(h := Apply(s.h, step))
    case Read(_, _, page) =>
      s.(reader := Reader(page.nextSequence, s.reader.received + Contents(page.entries), !page.hasMore))
  }

  ghost predicate Possible(s: State, event: Event, scope: Scope) {
    match event
    case Write(step) => Honest(s.h, step)
    case Read(maxItems, maxBytes, page) => PageOf(s.h.log, scope, s.reader.cursor, maxItems, maxBytes, page)
  }

  ghost predicate PossibleRun(s: State, events: seq<Event>, scope: Scope)
    decreases |events|
  {
    events == [] || (Possible(s, events[0], scope) && PossibleRun(Next(s, events[0]), events[1..], scope))
  }

  ghost function RunAll(s: State, events: seq<Event>): State
    decreases |events|
  {
    if events == [] then s else RunAll(Next(s, events[0]), events[1..])
  }

  const START := State(EMPTY, Reader(0, {}, false))

  // ----- the invariant -----

  /** A surviving row the reader has not paged past carries the operation. */
  ghost predicate Ahead(log: Log, scope: Scope, cursor: nat, op: Op) {
    exists id :: id in log.updates && Wanted(log.updates[id], scope, cursor) && op in log.updates[id].ops
  }

  ghost predicate Covered(s: State, scope: Scope) {
    forall i, op :: 0 <= i < |s.h.accepted| && RowIn(s.h.accepted[i], scope) && op in s.h.accepted[i].ops
      ==> op in s.reader.received || Ahead(s.h.log, scope, s.reader.cursor, op)
  }

  ghost predicate Sound(s: State, scope: Scope) {
    s.reader.received <= AcceptedMeaning(s.h.accepted, scope.noteId, scope.sectionId, scope.epoch)
  }

  ghost predicate CursorBehind(s: State, scope: Scope) {
    s.reader.cursor == 0
    || (scope.sectionId in s.h.log.sections && s.reader.cursor <= s.h.log.sections[scope.sectionId].currentSequence)
  }

  ghost predicate Inv(s: State, scope: Scope) {
    Valid(s.h) && Covered(s, scope) && Sound(s, scope) && CursorBehind(s, scope)
  }

  lemma AppendStaysAhead(h: History, row: Row, scope: Scope, cursor: nat, op: Op)
    requires RowsRecorded(h) && Appendable(h, row)
    requires row.sectionId == scope.sectionId ==> cursor < row.serverSequence
    requires Ahead(h.log, scope, cursor, op) || (RowIn(row, scope) && op in row.ops)
    ensures Ahead(Append(h.log, row), scope, cursor, op)
  {
    var log := Append(h.log, row);
    assert log.updates[row.updateId] == row;
    if !(RowIn(row, scope) && op in row.ops) {
      var id :| id in h.log.updates && Wanted(h.log.updates[id], scope, cursor) && op in h.log.updates[id].ops;
      var carrier := h.log.updates[id];
      assert carrier in h.accepted;
      assert !Compacted(carrier, row);
      assert log.updates[id] == carrier;
    }
  }

  lemma WriteKeepsCovered(s: State, step: Step, scope: Scope)
    requires RowsRecorded(s.h) && Covered(s, scope) && CursorBehind(s, scope) && Honest(s.h, step)
    ensures Covered(Next(s, Write(step)), scope)
    ensures CursorBehind(Next(s, Write(step)), scope)
  {
    var next := Next(s, Write(step));
    var base, row := StepShape(s.h, step);
    forall i, op | 0 <= i < |next.h.accepted| && RowIn(next.h.accepted[i], scope) && op in next.h.accepted[i].ops
      ensures op in s.reader.received || Ahead(next.h.log, scope, s.reader.cursor, op)
    {
      if op !in s.reader.received {
        if i < |s.h.accepted| {
          assert s.h.accepted[i] == next.h.accepted[i];
          SameRowsAhead(s.h, base, scope, s.reader.cursor, op);
        }
        if row.Some? {
          AppendStaysAhead(base, row.value, scope, s.reader.cursor, op);
        }
      }
    }
  }

  lemma SameRowsAhead(h: History, base: History, scope: Scope, cursor: nat, op: Op)
    requires SameRows(h, base) && Ahead(h.log, scope, cursor, op)
    ensures Ahead(base.log, scope, cursor, op)
  {
  }

  lemma WriteKeepsInv(s: State, step: Step, scope: Scope)
    requires Inv(s, scope) && Honest(s.h, step)
    ensures Inv(Next(s, Write(step)), scope)
  {
    StepKeepsValid(s.h, step);
    WriteKeepsCovered(s, step, scope);
    var base, row := StepShape(s.h, step);
    var next := Apply(s.h, step);
    if next.accepted != s.h.accepted {
      AcceptedMeaningGrows(s.h.accepted, next.accepted[|s.h.accepted|], scope.noteId, scope.sectionId, scope.epoch);
    }
  }

  /** Reading past a row hands over its operations; the rest stays ahead of the new cursor. */
  lemma ReadKeepsCovered(s: State, maxItems: nat, maxBytes: nat, page: Page, scope: Scope)
    requires Covered(s, scope) && PageOf(s.h.log, scope, s.reader.cursor, maxItems, maxBytes, page)
    ensures Covered(Next(s, Read(maxItems, maxBytes, page)), scope)
    ensures !page.hasMore ==> forall op :: !Ahead(s.h.log, scope, page.nextSequence, op)
  {
    var rows :| IsSelection(s.h.log, scope, s.reader.cursor, maxItems + 1, rows)
      && IsPage(rows, s.reader.cursor, maxItems, maxBytes, page);
    PageMovesForward(rows, s.reader.cursor, maxItems, maxBytes, page, scope, s.h.log);
    forall op | Ahead(s.h.log, scope, s.reader.cursor, op)
      ensures op in Contents(page.entries) || Ahead(s.h.log, scope, page.nextSequence, op)
    {
      var id :| id in s.h.log.updates && Wanted(s.h.log.updates[id], scope, s.reader.cursor) && op in s.h.log.updates[id].ops;
      RowReadOrAhead(s, rows, page, maxItems, maxBytes, scope, id, op);
    }
    forall op | !page.hasMore
      ensures !Ahead(s.h.log, scope, page.nextSequence, op)
    {
      if Ahead(s.h.log, scope, page.nextSequence, op) {
        var id :| id in s.h.log.updates && Wanted(s.h.log.updates[id], scope, page.nextSequence) && op in s.h.log.updates[id].ops;
        RowReadOrAhead(s, rows, page, maxItems, maxBytes, scope, id, op);
      }
    }
  }

  lemma PageMovesForward(rows: seq<Row>, after: nat, maxItems: nat, maxBytes: nat, page: Page, scope: Scope, log: Log)
    requires IsSelection(log, scope, after, maxItems + 1, rows) && IsPage(rows, after, maxItems, maxBytes, page)
    ensures after <= page.nextSequence
    ensures page.entries != [] ==> after < page.nextSequence && page.nextSequence == rows[|page.entries| - 1].serverSequence
  {
    if page.entries != [] {
      var k := |page.entries| - 1;
      assert Represents(page.entries[k], rows[k]);
      assert Wanted(rows[k], scope, after);
    }
  }

  lemma RowReadOrAhead(s: State, rows: seq<Row>, page: Page, maxItems: nat, maxBytes: nat, scope: Scope, id: Id, op: Op)
    requires IsSelection(s.h.log, scope, s.reader.cursor, maxItems + 1, rows)
    requires IsPage(rows, s.reader.cursor, maxItems, maxBytes, page)
    requires id in s.h.log.updates && Wanted(s.h.log.updates[id], scope, s.reader.cursor) && op in s.h.log.updates[id].ops
    ensures op in Contents(page.entries) || (page.hasMore && Wanted(s.h.log.updates[id], scope, page.nextSequence))
    ensures !page.hasMore ==> !Wanted(s.h.log.updates[id], scope, page.nextSequence)
  {
    var row := s.h.log.updates[id];
    var k := |page.entries|;
    PageMovesForward(rows, s.reader.cursor, maxItems, maxBytes, page, scope, s.h.log);
    if row in rows {
      var i :| 0 <= i < |rows| && rows[i] == row;
      if i < k {
        assert Represents(page.entries[i], rows[i]);
        assert op in page.entries[i].base.ops;
        assert i == k - 1 || rows[i].serverSequence < rows[k - 1].serverSequence;
      }
    }
  }

  lemma ReadKeepsSound(s: State, maxItems: nat, maxBytes: nat, page: Page, scope: Scope)
    requires RowsRecorded(s.h) && Indexed(s.h.log) && Sound(s, scope) && CursorBehind(s, scope)
    requires PageOf(s.h.log, scope, s.reader.cursor, maxItems, maxBytes, page)
    ensures Sound(Next(s, Read(maxItems, maxBytes, page)), scope)
    ensures CursorBehind(Next(s, Read(maxItems, maxBytes, page)), scope)
  {
    var rows :| IsSelection(s.h.log, scope, s.reader.cursor, maxItems + 1, rows)
      && IsPage(rows, s.reader.cursor, maxItems, maxBytes, page);
    PageMovesForward(rows, s.reader.cursor, maxItems, maxBytes, page, scope, s.h.log);
    PageIsAccepted(s.h, scope, s.reader.cursor, maxItems, maxBytes, rows, page);
  }

  lemma PageIsAccepted(h: History, scope: Scope, after: nat, maxItems: nat, maxBytes: nat, rows: seq<Row>, page: Page)
    requires RowsRecorded(h)
    requires IsSelection(h.log, scope, after, maxItems + 1, rows) && IsPage(rows, after, maxItems, maxBytes, page)
    ensures Contents(page.entries) <= AcceptedMeaning(h.accepted, scope.noteId, scope.sectionId, scope.epoch)
  {
    forall op | op in Contents(page.entries)
      ensures op in AcceptedMeaning(h.accepted, scope.noteId, scope.sectionId, scope.epoch)
    {
      var i :| 0 <= i < |page.entries| && op in page.entries[i].base.ops;
      assert Represents(page.entries[i], rows[i]) && Wanted(rows[i], scope, after);
      var j :| 0 <= j < |h.accepted| && h.accepted[j] == rows[i];
    }
  }

  lemma EventKeepsInv(s: State, event: Event, scope: Scope)
    requires Inv(s, scope) && Possible(s, event, scope)
    ensures Inv(Next(s, event), scope)
  {
    match event
    case Write(step) => WriteKeepsInv(s, step, scope);
    case Read(maxItems, maxBytes, page) =>
      ReadKeepsCovered(s, maxItems, maxBytes, page, scope);
      ValidIsIndexed(s.h);
      ReadKeepsSound(s, maxItems, maxBytes, page, scope);
  }

  lemma {:induction false} RunKeepsInv(s: State, events: seq<Event>, scope: Scope)
    requires Inv(s, scope) && PossibleRun(s, events, scope)
    ensures Inv(RunAll(s, events), scope)
    decreases |events|
  {
    if events != [] {
      EventKeepsInv(s, events[0], scope);
      RunKeepsInv(Next(s, events[0]), events[1..], scope);
    }
  }

  lemma CompletePageAt(s: State, maxItems: nat, maxBytes: nat, page: Page, scope: Scope)
    requires Inv(s, scope) && PageOf(s.h.log, scope, s.reader.cursor, maxItems, maxBytes, page) && !page.hasMore
    ensures s.reader.received + Contents(page.entries) == AcceptedMeaning(s.h.accepted, scope.noteId, scope.sectionId, scope.epoch)
  {
    var next := Next(s, Read(maxItems, maxBytes, page));
    assert Covered(next, scope) && forall op :: !Ahead(next.h.log, scope, next.reader.cursor, op) by {
      ReadKeepsCovered(s, maxItems, maxBytes, page, scope);
    }
    assert Sound(next, scope) by { ValidIsIndexed(s.h); ReadKeepsSound(s, maxItems, maxBytes, page, scope); }
    NothingAhead(next, scope);
  }

  lemma NothingAhead(s: State, scope: Scope)
    requires Covered(s, scope) && Sound(s, scope)
    requires forall op :: !Ahead(s.h.log, scope, s.reader.cursor, op)
    ensures s.reader.received == AcceptedMeaning(s.h.accepted, scope.noteId, scope.sectionId, scope.epoch)
  {
  }

  /**
   Whatever writers did before and between the pages, when a page reports nothing more the
   reader holds exactly the operations accepted in its scope so far.
   */
  lemma CompletePageMeansEverything(before: seq<Event>, maxItems: nat, maxBytes: nat, page: Page, scope: Scope)
    requires PossibleRun(START, before, scope)
    requires Possible(RunAll(START, before), Read(maxItems, maxBytes, page), scope) && !page.hasMore
    ensures var s := Next(RunAll(START, before), Read(maxItems, maxBytes, page));
      s.reader.received == AcceptedMeaning(s.h.accepted, scope.noteId, scope.sectionId, scope.epoch)
  {
    RunKeepsInv(START, before, scope);
    CompletePageAt(RunAll(START, before), maxItems, maxBytes, page, scope);
  }

  /** What such a reader writes as a checkpoint meets the checkpoint obligation at any cutoff. */
  lemma CompleteReaderMayCheckpoint(before: seq<Event>, maxItems: nat, maxBytes: nat, page: Page, scope: Scope,
      cutoff: nat)
    requires PossibleRun(START, before, scope)
    requires Possible(RunAll(START, before), Read(maxItems, maxBytes, page), scope) && !page.hasMore
    ensures var s := Next(RunAll(START, before), Read(maxItems, maxBytes, page));
      Covers(s.h.accepted, scope.noteId, scope.sectionId, scope.epoch, cutoff, s.reader.received)
  {
    CompletePageMeansEverything(before, maxItems, maxBytes, page, scope);
    var s := Next(RunAll(START, before), Read(maxItems, maxBytes, page));
    forall i | 0 <= i < |s.h.accepted| && RowIn(s.h.accepted[i], scope) && s.h.accepted[i].serverSequence <= cutoff
      ensures s.h.accepted[i].ops <= s.reader.received
    {
    }
  }

  /** A page that promises more moves the cursor exactly when the page size is not zero. */
  lemma PagesMakeProgress(log: Log, scope: Scope, after: nat, maxItems: nat, maxBytes: nat, page: Page)
    requires PageOf(log, scope, after, maxItems, maxBytes, page) && page.hasMore
    ensures after < page.nextSequence <==> 0 < maxItems
  {
    var rows :| IsSelection(log, scope, after, maxItems + 1, rows) && IsPage(rows, after, maxItems, maxBytes, page);
    PageMovesForward(rows, after, maxItems, maxBytes, page, scope, log);
  }
}
