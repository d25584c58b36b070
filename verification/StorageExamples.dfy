/**
 Runs in which a storage account and its rows part: a reconciliation during an attachment upload,
 the permanent deletion of a note that holds bytes, and a lost reply to an attachment commit.
 */
module StorageExamples {
  import opened Basics
  import opened Totals
  import opened SectionHistory
  import opened ContentStore
  import opened AttachmentRepository
  import opened UploadLifecycle
  import opened StorageLedger

  // ----- a reconciliation during an attachment upload -----

  /** Owner 7 reserves ten bytes for an attachment of note 1; a reconciliation runs; the commit is refused. */
  function ReconcileMidUpload(): seq<Step> {
    [NoteStep(1, Note(7, 7, 1, false, false)),
     MemberStep(MemberKey(1, 7), Some(Membership(Owner, Active))),
     HoldStep(0, 7, 1, 2, 10, 1),
     ReconcileStep(7)]
  }

  ghost function MidUpload(textHash: string -> string): World {
    Run(Config(100, textHash), NEW_DATABASE, ReconcileMidUpload())
  }

  /** The state between reserve and commit. */
  function Midway(accounts: map<Id, Account>): World {
    World(Db(map[1 := Note(7, 7, 1, false, false)], map[MemberKey(1, 7) := Membership(Owner, Active)], Log(map[], map[]),
             map[], map[], map[], map[], accounts),
          map[0 := Hold(1, 7, 2, 1, 10)])
  }

  lemma RunFour(config: Config, w: World, steps: seq<Step>)
    requires |steps| == 4
    ensures Run(config, w, steps)
      == Next(config, Next(config, Next(config, Next(config, w, steps[0]), steps[1]), steps[2]), steps[3])
  {
    hide Next;
    var a := Next(config, w, steps[0]);
    var b := Next(config, a, steps[1]);
    var c := Next(config, b, steps[2]);
    assert Run(config, w, steps) == Run(config, a, steps[1..]);
    assert Run(config, a, steps[1..]) == Run(config, b, steps[1..][1..]);
    assert Run(config, b, steps[1..][1..]) == Run(config, c, steps[1..][1..][1..]);
    assert Run(config, c, steps[1..][1..][1..]) == Next(config, c, steps[3]);
  }

  lemma ReserveIsMidway(config: Config)
    requires config.quota == 100
    ensures var steps := ReconcileMidUpload();
      Next(config, Next(config, Next(config, NEW_DATABASE, steps[0]), steps[1]), steps[2]) == Midway(map[7 := Account(0, 10)])
  {
  }

  lemma ReconcileForgets(config: Config)
    ensures var next := Next(config, Midway(map[7 := Account(0, 10)]), ReconcileStep(7));
      next == Midway(next.db.accounts) && 7 in next.db.accounts && next.db.accounts[7].reserved == 0
  {
    hide Total, Recomputed;
    NothingUploaded(Midway(map[7 := Account(0, 10)]).db);
  }

  lemma AllEnabled(config: Config)
    requires config.quota == 100
    ensures EnabledRun(config, NEW_DATABASE, ReconcileMidUpload())
  {
    hide Next, Begun;
    var steps := ReconcileMidUpload();
    var a := Next(config, NEW_DATABASE, steps[0]);
    var b := Next(config, a, steps[1]);
    var c := Next(config, b, steps[2]);
    BeforeTheHold(config);
    assert steps[1..][0] == steps[1] && steps[1..][1..][0] == steps[2] && steps[1..][1..][1..] == [steps[3]];
    assert EnabledRun(config, c, steps[1..][1..][1..]);
    assert EnabledRun(config, b, steps[1..][1..]);
    assert EnabledRun(config, a, steps[1..]);
  }

  lemma BeforeTheHold(config: Config)
    ensures var steps := ReconcileMidUpload();
      0 !in Next(config, Next(config, NEW_DATABASE, steps[0]), steps[1]).holds
  {
  }

  lemma ReconcileDuringUploadLosesTheReservation(textHash: string -> string)
    ensures EnabledRun(Config(100, textHash), NEW_DATABASE, ReconcileMidUpload())
    ensures var w := MidUpload(textHash);
      && 0 in w.holds && w.holds[0] == Hold(1, 7, 2, 1, 10)
      && AttachmentCommitted(w.db, true, 7, 1, 7, 1, 2, 10).1 == AttachmentRefused(OverQuota)
  {
    hide Next, EnabledRun, Run;
    var config := Config(100, textHash);
    AllEnabled(config);
    RunFour(config, NEW_DATABASE, ReconcileMidUpload());
    ReserveIsMidway(config);
    ReconcileForgets(config);
    assert ReconcileMidUpload()[3] == ReconcileStep(7);
  }

  lemma NothingUploaded(db: Db)
    requires db.uploads == map[]
    ensures Recomputed(db, 7).reserved == 0
  {
    assert UploadWeights(db.notes, db.uploads, 7) == map[];
  }

  // ----- deleting a note that holds bytes -----

  const DRAFT := BeginInput(5, 6, 1, Root, 1, Update, 2, 10, 1, "", None, {}, 0)

  /** Owner 7 begins an upload of ten bytes into note 1 and deletes the note. */
  function BeginThenDelete(): seq<Step> {
    [NoteStep(1, Note(7, 7, 1, false, false)),
     MemberStep(MemberKey(1, 7), Some(Membership(Owner, Active))),
     BeginStep(true, 7, DRAFT),
     DeleteNoteStep(1, 7)]
  }

  function Begun10(): World {
    World(Db(map[1 := Note(7, 7, 1, false, false)], map[MemberKey(1, 7) := Membership(Owner, Active)],
             Log(map[1 := Section(1, 1, 0, false)], map[]), map[5 := NewUpload(DRAFT, 1, 7)], map[], map[], map[], map[7 := Account(0, 10)]),
          map[])
  }

  lemma BeginReserves(config: Config)
    requires config.quota == 100
    ensures var steps := BeginThenDelete();
      Next(config, Next(config, Next(config, NEW_DATABASE, steps[0]), steps[1]), steps[2]) == Begun10()
  {
  }

  lemma DeletionForgets(config: Config)
    ensures var next := Next(config, Begun10(), DeleteNoteStep(1, 7));
      next.db.uploads == map[] && next.db.manifests == map[] && next.holds == map[] && next.db.attachments == map[]
      && next.db.accounts == map[7 := Account(0, 10)]
  {
    hide Total;
    var none: map<Id, nat> := map[];
    TotalZero(none);
    assert NoteAttachments(Begun10().db.attachments, 1, 7) == none;
  }

  /** The counters keep ten reserved bytes for which no row is left, so only a reconciliation frees them. */
  lemma DeletionLeavesBytes(textHash: string -> string)
    ensures EnabledRun(Config(100, textHash), NEW_DATABASE, BeginThenDelete())
    ensures var w := Run(Config(100, textHash), NEW_DATABASE, BeginThenDelete());
      && Balance(w.db.accounts, 7).reserved == 10 && w.db.uploads == map[] && w.db.manifests == map[] && w.holds == map[]
      && Exceeds(w, 7, Left(10, 0))
  {
    hide Next, Run, NoteDeleted, EnabledRun;
    var config := Config(100, textHash);
    RunFour(config, NEW_DATABASE, BeginThenDelete());
    BeginReserves(config);
    DeletionForgets(config);
    BeginThenDeleteEnabled(config);
    var w := Run(config, NEW_DATABASE, BeginThenDelete());
    assert w == Next(config, Begun10(), DeleteNoteStep(1, 7));
    NoRows(w);
  }

  lemma NoRows(w: World)
    requires w.db.uploads == map[] && w.db.manifests == map[] && w.holds == map[] && w.db.accounts == map[7 := Account(0, 10)]
    requires w.db.attachments == map[]
    ensures Exceeds(w, 7, Left(10, 0))
  {
    assert UploadWeights(w.db.notes, w.db.uploads, 7) == map[] && ManifestWeights(w.db.notes, w.db.manifests, 7) == map[];
    assert AttachmentWeights(w.db.notes, w.db.attachments, 7) == map[] && HoldWeights(w.holds, 7) == map[];
  }

  lemma BeginThenDeleteEnabled(config: Config)
    ensures EnabledRun(config, NEW_DATABASE, BeginThenDelete())
  {
    hide Next, Begun;
    var steps := BeginThenDelete();
    var a := Next(config, NEW_DATABASE, steps[0]);
    var b := Next(config, a, steps[1]);
    var c := Next(config, b, steps[2]);
    assert steps[1..][0] == steps[1] && steps[1..][1..][0] == steps[2] && steps[1..][1..][1..] == [steps[3]];
    assert EnabledRun(config, c, steps[1..][1..][1..]);
    assert EnabledRun(config, b, steps[1..][1..]);
    assert EnabledRun(config, a, steps[1..]);
  }

  // ----- a lost reply to an attachment commit -----

  /**
   An attachment commit is stored, its reply is lost, and the handler releases the bytes again:
   usage stays exact, and the reservation falls by the attachment's size, or by all that is left
   of it, below what it stands for. It does no harm if and only if nothing else is reserved.
   */
  lemma LostReplyReleasesTwice(config: Config, w: World, holdId: Id, session: bool, actorUserId: Id)
    requires LedgerInv(config, w) && holdId in w.holds && 0 < w.holds[holdId].size
    requires Next(config, w, AttachStep(holdId, session, actorUserId)).holds == w.holds - {holdId}
    ensures var hold := w.holds[holdId];
      var stored := Next(config, w, AttachStep(holdId, session, actorUserId));
      var after := stored.(db := stored.db.(accounts := Release(stored.db.accounts, hold.ownerUserId, hold.size)));
      && (forall u :: UsedSlack(after, u) == UsedSlack(w, u))
      && (forall u :: u != hold.ownerUserId ==> ReservedSlack(after, u) == ReservedSlack(w, u))
      && ReservedSlack(after, hold.ownerUserId)
        == ReservedSlack(w, hold.ownerUserId) - Min(hold.size, Balance(stored.db.accounts, hold.ownerUserId).reserved)
      && (SameSlack(w, after) <==> Balance(stored.db.accounts, hold.ownerUserId).reserved == 0)
  {
    hide LedgerInv, Next, Total, UploadWeights, ManifestWeights, AttachmentWeights, HoldWeights;
    var hold := w.holds[holdId];
    var stored := Next(config, w, AttachStep(holdId, session, actorUserId));
    StepConserves(config, w, AttachStep(holdId, session, actorUserId));
    var after := stored.(db := stored.db.(accounts := Release(stored.db.accounts, hold.ownerUserId, hold.size)));
    forall u
      ensures UsedSlack(after, u) == UsedSlack(w, u)
      ensures ReservedSlack(after, u) == ReservedSlack(w, u)
        - (if u == hold.ownerUserId then Min(hold.size, Balance(stored.db.accounts, u).reserved) else 0)
    {
      assert ReservedSlack(stored, u) == ReservedSlack(w, u) && UsedSlack(stored, u) == UsedSlack(w, u);
    }
  }
}
