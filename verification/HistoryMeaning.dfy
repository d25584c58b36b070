/**
 What every run of the section log keeps: compaction never changes the meaning of a section,
 and both writers number their rows strictly upwards.
 */
module HistoryMeaning {
  import opened Basics
  import opened SectionHistory

  /** The log together with every row it ever accepted, oldest first. */
  datatype History = History(log: Log, accepted: seq<Row>)

  datatype Step =
    | PersistStep(session: bool, access: Option<Access>, header: Header, payload: Payload)
    | CommitStep(row: Row)
    | EnsureStep(noteId: Id, sectionId: SectionRef, noteEpoch: nat)
    | CreateSectionStep(stored: Id, noteId: Id, epoch: nat)
    | DeleteSectionStep(stored: Id)

  function Apply(h: History, step: Step): History {
    match step
    case PersistStep(session, access, header, payload) =>
      var (log, outcome) := Persisted(h.log, session, access, header, payload);
      History(log, if outcome.Inserted? then h.accepted + [InlineRow(header, payload, outcome.serverSequence)] else h.accepted)
    case CommitStep(row) =>
      if ManifestAdmitted(h.log, row) then History(Append(h.log, row), h.accepted + [row]) else h
    case EnsureStep(noteId, sectionId, noteEpoch) =>
      h.(log := h.log.(sections := EnsuredSections(h.log, noteId, sectionId, noteEpoch)))
    case CreateSectionStep(sectionId, noteId, epoch) =>
      if sectionId in h.log.sections then h
      else h.(log := h.log.(sections := h.log.sections[sectionId := Section(noteId, epoch, 0, false)]))
    case DeleteSectionStep(sectionId) =>
      if sectionId !in h.log.sections then h
      else h.(log := h.log.(sections := h.log.sections[sectionId := h.log.sections[sectionId].(isDeleted := true)]))
  }

  /** Everything accepted in the scope up to the cutoff is among the operations. */
  ghost predicate Covers(accepted: seq<Row>, noteId: Id, sectionId: Id, epoch: nat, cutoff: nat, ops: set<Op>) {
    forall i :: 0 <= i < |accepted| && InScope(accepted[i], noteId, sectionId, epoch) && accepted[i].serverSequence <= cutoff
      ==> accepted[i].ops <= ops
  }

  ghost predicate RowCovers(accepted: seq<Row>, row: Row) {
    Covers(accepted, row.noteId, row.sectionId, row.keyEpoch, Cutoff(row), row.ops)
  }

  /** The writer's obligation: a checkpoint it gets accepted covers its prefix. */
  ghost predicate Honest(h: History, step: Step) {
    match step
    case PersistStep(session, access, header, payload) =>
      var (_, outcome) := Persisted(h.log, session, access, header, payload);
      outcome.Inserted? ==> RowCovers(h.accepted, InlineRow(header, payload, outcome.serverSequence))
    case CommitStep(row) => ManifestAdmitted(h.log, row) ==> RowCovers(h.accepted, row)
    case _ => true
  }

  function Run(h: History, steps: seq<Step>): History
    decreases |steps|
  {
    if steps == [] then h else Run(Apply(h, steps[0]), steps[1..])
  }

  ghost predicate HonestRun(h: History, steps: seq<Step>)
    decreases |steps|
  {
    steps == [] || (Honest(h, steps[0]) && HonestRun(Apply(h, steps[0]), steps[1..]))
  }

  const EMPTY := History(Log(map[], map[]), [])

  // ----- meaning -----

  ghost function Meaning(log: Log, noteId: Id, sectionId: Id, epoch: nat): set<Op> {
    set id, op | id in log.updates && InScope(log.updates[id], noteId, sectionId, epoch) && op in log.updates[id].ops :: op
  }

  ghost function AcceptedMeaning(accepted: seq<Row>, noteId: Id, sectionId: Id, epoch: nat): set<Op> {
    set i, op | 0 <= i < |accepted| && InScope(accepted[i], noteId, sectionId, epoch) && op in accepted[i].ops :: op
  }

  lemma AcceptedMeaningGrows(accepted: seq<Row>, row: Row, noteId: Id, sectionId: Id, epoch: nat)
    ensures AcceptedMeaning(accepted + [row], noteId, sectionId, epoch)
      == AcceptedMeaning(accepted, noteId, sectionId, epoch)
       + (if InScope(row, noteId, sectionId, epoch) then row.ops else {})
  {
    var longer := accepted + [row];
    forall op | op in AcceptedMeaning(accepted, noteId, sectionId, epoch)
      ensures op in AcceptedMeaning(longer, noteId, sectionId, epoch)
    {
      var i :| 0 <= i < |accepted| && InScope(accepted[i], noteId, sectionId, epoch) && op in accepted[i].ops;
      assert longer[i] == accepted[i];
    }
    assert longer[|accepted|] == row;
  }

  // ----- the invariant -----

  ghost predicate RowsRecorded(h: History) {
    forall id :: id in h.log.updates ==> h.log.updates[id].updateId == id && h.log.updates[id] in h.accepted
  }

  ghost predicate Numbered(h: History) {
    && (forall i :: 0 <= i < |h.accepted| ==>
          && h.accepted[i].sectionId in h.log.sections
          && 1 <= h.accepted[i].serverSequence <= h.log.sections[h.accepted[i].sectionId].currentSequence)
    && (forall i, j :: 0 <= i < j < |h.accepted| && h.accepted[i].sectionId == h.accepted[j].sectionId
          ==> h.accepted[i].serverSequence < h.accepted[j].serverSequence)
  }

  /** Some surviving row of r's own scope carries the operation. */
  ghost predicate Carried(log: Log, r: Row, op: Op) {
    exists id :: id in log.updates && SameScope(log.updates[id], r) && op in log.updates[id].ops
  }

  ghost predicate Preserved(h: History) {
    forall i, op :: 0 <= i < |h.accepted| && op in h.accepted[i].ops ==> Carried(h.log, h.accepted[i], op)
  }

  ghost predicate Valid(h: History) {
    RowsRecorded(h) && Numbered(h) && Preserved(h)
  }

  // ----- appending a row -----

  /** A row about to be appended: next in its section, new to the log, covering its cutoff. */
  ghost predicate Appendable(h: History, row: Row) {
    && row.sectionId in h.log.sections
    && row.serverSequence == h.log.sections[row.sectionId].currentSequence + 1
    && Cutoff(row) < row.serverSequence
    && row.updateId !in h.log.updates
    && RowCovers(h.accepted, row)
  }

  lemma AppendRecords(h: History, row: Row)
    requires RowsRecorded(h) && row.sectionId in h.log.sections
    ensures RowsRecorded(History(Append(h.log, row), h.accepted + [row]))
  {
  }

  lemma AppendNumbers(h: History, row: Row)
    requires Numbered(h) && Appendable(h, row)
    ensures Numbered(History(Append(h.log, row), h.accepted + [row]))
  {
  }

  /** An operation carried before the append is carried after it. */
  lemma AppendCarries(h: History, row: Row, r: Row, op: Op)
    requires RowsRecorded(h) && Appendable(h, row) && Carried(h.log, r, op)
    ensures Carried(Append(h.log, row), r, op)
  {
    var log := Append(h.log, row);
    var id :| id in h.log.updates && SameScope(h.log.updates[id], r) && op in h.log.updates[id].ops;
    var carrier := h.log.updates[id];
    if Compacted(carrier, row) {
      assert carrier in h.accepted;
      assert op in row.ops;
      assert log.updates[row.updateId] == row;
    } else {
      assert log.updates[id] == carrier;
    }
  }

  lemma AppendValid(h: History, row: Row)
    requires Valid(h) && Appendable(h, row)
    ensures Valid(History(Append(h.log, row), h.accepted + [row]))
  {
    var next := History(Append(h.log, row), h.accepted + [row]);
    AppendRecords(h, row);
    AppendNumbers(h, row);
    forall i, op | 0 <= i < |next.accepted| && op in next.accepted[i].ops
      ensures Carried(next.log, next.accepted[i], op)
    {
      if i < |h.accepted| {
        AppendCarries(h, row, h.accepted[i], op);
      } else {
        assert next.log.updates[row.updateId] == row;
      }
    }
  }

  lemma SectionsOnly(h: History, sections: map<Id, Section>)
    requires Valid(h)
    requires forall s :: s in h.log.sections ==>
      s in sections && h.log.sections[s].currentSequence <= sections[s].currentSequence
    ensures Valid(h.(log := h.log.(sections := sections)))
  {
    var next := h.(log := h.log.(sections := sections));
    forall i, op | 0 <= i < |next.accepted| && op in next.accepted[i].ops
      ensures Carried(next.log, next.accepted[i], op)
    {
      assert Carried(h.log, h.accepted[i], op);
      var id :| id in h.log.updates && SameScope(h.log.updates[id], h.accepted[i]) && op in h.log.updates[id].ops;
      assert id in next.log.updates;
    }
  }

  /** Counters and rows are as before; sections may have been added or marked deleted. */
  ghost predicate SameRows(h: History, base: History) {
    && base.accepted == h.accepted
    && base.log.updates == h.log.updates
    && (forall s :: s in h.log.sections ==>
          s in base.log.sections && base.log.sections[s].currentSequence == h.log.sections[s].currentSequence)
  }

  /** Every step changes sections only, and then appends at most one covered row. */
  lemma StepShape(h: History, step: Step) returns (base: History, row: Option<Row>)
    requires Honest(h, step)
    ensures SameRows(h, base)
    ensures row.None? ==> Apply(h, step) == base
    ensures row.Some? ==>
      && Appendable(base, row.value)
      && Apply(h, step) == History(Append(base.log, row.value), base.accepted + [row.value])
  {
    base, row := Apply(h, step), None;
    match step
    case PersistStep(session, access, header, payload) =>
      var (_, outcome) := Persisted(h.log, session, access, header, payload);
      if outcome.Inserted? {
        base := h.(log := h.log.(sections := EnsuredSections(h.log, header.noteId, header.sectionId, access.value.keyEpoch)));
        row := Some(InlineRow(header, payload, outcome.serverSequence));
      }
    case CommitStep(committed) =>
      if ManifestAdmitted(h.log, committed) {
        base, row := h, Some(committed);
      }
    case _ =>
  }

  lemma StepKeepsValid(h: History, step: Step)
    requires Valid(h) && Honest(h, step)
    ensures Valid(Apply(h, step))
  {
    var base, row := StepShape(h, step);
    SectionsOnly(h, base.log.sections);
    assert base == h.(log := h.log.(sections := base.log.sections));
    if row.Some? {
      AppendValid(base, row.value);
    }
  }

  lemma {:induction false} RunKeepsValid(h: History, steps: seq<Step>)
    requires Valid(h) && HonestRun(h, steps)
    ensures Valid(Run(h, steps))
    decreases |steps|
  {
    if steps != [] {
      StepKeepsValid(h, steps[0]);
      RunKeepsValid(Apply(h, steps[0]), steps[1..]);
    }
  }

  lemma ValidPreservesMeaning(h: History, noteId: Id, sectionId: Id, epoch: nat)
    requires Valid(h)
    ensures Meaning(h.log, noteId, sectionId, epoch) == AcceptedMeaning(h.accepted, noteId, sectionId, epoch)
  {
    forall op | op in AcceptedMeaning(h.accepted, noteId, sectionId, epoch)
      ensures op in Meaning(h.log, noteId, sectionId, epoch)
    {
      var i :| 0 <= i < |h.accepted| && InScope(h.accepted[i], noteId, sectionId, epoch) && op in h.accepted[i].ops;
      assert Carried(h.log, h.accepted[i], op);
    }
    forall op | op in Meaning(h.log, noteId, sectionId, epoch)
      ensures op in AcceptedMeaning(h.accepted, noteId, sectionId, epoch)
    {
      var id :| id in h.log.updates && InScope(h.log.updates[id], noteId, sectionId, epoch) && op in h.log.updates[id].ops;
      assert h.log.updates[id] in h.accepted;
    }
  }

  /** After any run, in every scope, the surviving rows mean exactly what was ever accepted. */
  lemma CompactionPreservesMeaning(steps: seq<Step>, noteId: Id, sectionId: Id, epoch: nat)
    requires HonestRun(EMPTY, steps)
    ensures var h := Run(EMPTY, steps);
      Meaning(h.log, noteId, sectionId, epoch) == AcceptedMeaning(h.accepted, noteId, sectionId, epoch)
  {
    RunKeepsValid(EMPTY, steps);
    ValidPreservesMeaning(Run(EMPTY, steps), noteId, sectionId, epoch);
  }

  /** Both writers number a section's rows strictly upwards, over any run. */
  lemma SequencesIncrease(steps: seq<Step>, i: nat, j: nat)
    requires HonestRun(EMPTY, steps)
    requires i < j < |Run(EMPTY, steps).accepted|
    ensures var accepted := Run(EMPTY, steps).accepted;
      accepted[i].sectionId == accepted[j].sectionId ==> accepted[i].serverSequence < accepted[j].serverSequence
  {
    RunKeepsValid(EMPTY, steps);
  }

  /**
   What accepting a row does to the others: it survives itself, exactly the rows of its own
   scope at or below its cutoff go, and every other row (other epochs included) is untouched.
   */
  lemma AppendDeletesExactlyThePrefix(h: History, row: Row, id: Id)
    requires Valid(h) && Appendable(h, row)
    ensures var after := Append(h.log, row).updates;
      && row.updateId in after && after[row.updateId] == row
      && (id in h.log.updates ==>
            && (id in after <==> !(SameScope(h.log.updates[id], row) && h.log.updates[id].serverSequence <= Cutoff(row)))
            && (id in after ==> after[id] == h.log.updates[id]))
  {
    if id in h.log.updates {
      assert h.log.updates[id] in h.accepted;
    }
  }

  /** Sending an update again while its row survives answers with its first sequence and writes nothing. */
  lemma ResendOfSurvivingRow(h: History, session: bool, access: Option<Access>, header: Header, payload: Payload)
    requires Valid(h)
    requires Gate(session, access, header).None?
    requires header.updateId in h.log.updates
    requires InScope(h.log.updates[header.updateId], header.noteId, StorageSectionId(header.noteId, header.sectionId), header.expectedKeyEpoch)
    ensures var (log, outcome) := Persisted(h.log, session, access, header, payload);
      && log.updates == h.log.updates
      && !outcome.Inserted?
      && (outcome.AlreadyPresent? ==> outcome.serverSequence == h.log.updates[header.updateId].serverSequence)
      && (outcome.Rejected? ==>
            || !Usable(log.sections, StorageSectionId(header.noteId, header.sectionId), header.noteId, access.value.keyEpoch)
            || CutoffRefused(header, log.sections[StorageSectionId(header.noteId, header.sectionId)]))
  {
  }

  /** Sending again an update whose row was compacted is numbered anew and changes no meaning. */
  lemma ResendOfCompactedRow(h: History, step: Step, noteId: Id, sectionId: Id, epoch: nat)
    requires Valid(h) && Honest(h, step) && step.PersistStep?
    requires step.payload.ops <=
      AcceptedMeaning(h.accepted, step.header.noteId, StorageSectionId(step.header.noteId, step.header.sectionId), step.header.expectedKeyEpoch)
    ensures Meaning(Apply(h, step).log, noteId, sectionId, epoch) == Meaning(h.log, noteId, sectionId, epoch)
  {
    var next := Apply(h, step);
    StepKeepsValid(h, step);
    ValidPreservesMeaning(h, noteId, sectionId, epoch);
    ValidPreservesMeaning(next, noteId, sectionId, epoch);
    if next.accepted != h.accepted {
      AcceptedMeaningGrows(h.accepted, next.accepted[|h.accepted|], noteId, sectionId, epoch);
    }
  }

  // ----- a checkpoint's obligation does not expire -----

  /** Counters never go back, and later rows are numbered above every earlier counter. */
  ghost predicate Later(h: History, next: History) {
    && h.accepted <= next.accepted
    && (forall s :: s in h.log.sections ==>
          s in next.log.sections && h.log.sections[s].currentSequence <= next.log.sections[s].currentSequence)
    && (forall i :: |h.accepted| <= i < |next.accepted| && next.accepted[i].sectionId in h.log.sections ==>
          next.accepted[i].serverSequence > h.log.sections[next.accepted[i].sectionId].currentSequence)
  }

  lemma StepIsLater(h: History, step: Step)
    ensures Later(h, Apply(h, step))
  {
  }

  /**
   A checkpoint prepared when its cutoff had already been numbered still covers its prefix
   whenever, and however often, it arrives.
   */
  lemma ObligationIsStable(h: History, step: Step, noteId: Id, sectionId: Id, epoch: nat, cutoff: nat, ops: set<Op>)
    requires Valid(h) && Honest(h, step)
    requires Covers(h.accepted, noteId, sectionId, epoch, cutoff, ops)
    requires cutoff == 0 || (sectionId in h.log.sections && cutoff <= h.log.sections[sectionId].currentSequence)
    ensures Covers(Apply(h, step).accepted, noteId, sectionId, epoch, cutoff, ops)
  {
    var next := Apply(h, step);
    StepIsLater(h, step);
    StepKeepsValid(h, step);
    forall i | 0 <= i < |next.accepted| && InScope(next.accepted[i], noteId, sectionId, epoch) && next.accepted[i].serverSequence <= cutoff
      ensures next.accepted[i].ops <= ops
    {
      if i < |h.accepted| {
        assert next.accepted[i] == h.accepted[i];
      }
    }
  }
}
