/**
 What people can open with what they hold: over every run the owner's row gives the key in force
 and the title, and a member's share gives that key exactly when it was sealed for the present epoch.
 */
module KeyCustody {
  import opened Basics
  import opened SectionHistory
  import opened NoteSharing
  import opened KeyRotation

  // ----- opening -----

  /** decryptOwnedNoteKey: the row's key envelope, with the root key and the note's epoch. */
  function OwnersKey(w: World): Option<Key> {
    if w.t.note.None? then None
    else OpenEnvelope(w.t.note.value.encryptedNoteKey, w.rootKey, OwnerContext(w.cryptoOwnerId, w.noteId, w.t.note.value.keyEpoch))
  }

  /** decryptSharedNoteKey: the member's share, with its sharing key of the row's version and the note's epoch. */
  function MembersKey(w: World, userId: Id): Option<Key> {
    if w.t.note.None? || userId !in w.t.shares then None
    else
      var share := w.t.shares[userId];
      OpenShare(share.encryptedNoteKey, SharingKey(userId, share.sharingKeyVersion),
                ShareContext(w.cryptoOwnerId, w.noteId, w.t.note.value.keyEpoch, userId, share.sharingKeyVersion, share.senderUserId))
  }

  /** decryptNoteTitle: the row's title envelope, with a note key. */
  function TitleUnder(w: World, key: Key): Option<Secret> {
    if w.t.note.None? then None
    else OpenEnvelope(w.t.note.value.titleCipher, key, TitleContext(w.cryptoOwnerId, w.noteId, w.t.note.value.keyEpoch))
  }

  // ----- the invariant -----

  /** The owner gets the key in force, and it opens the title of the present version. */
  ghost predicate RowOpens(w: World) {
    && w.t.note.Some? && w.t.note.value.keyEpoch in w.keys && w.t.note.value.rootVersion in w.titles
    && OwnersKey(w) == Some(w.keys[w.t.note.value.keyEpoch])
    && TitleUnder(w, w.keys[w.t.note.value.keyEpoch]) == Some(w.titles[w.t.note.value.rootVersion])
  }

  /** The share holds the key of the epoch it was sealed for, for its user and as its row says. */
  ghost predicate ShareOk(w: World, userId: Id) {
    && userId in w.t.shares
    && var share := w.t.shares[userId];
    && var epoch := share.encryptedNoteKey.context.keyEpoch;
    && epoch in w.keys && share.encryptedNoteKey.plain == w.keys[epoch]
    && share.encryptedNoteKey.recipient == SharingKey(userId, share.sharingKeyVersion)
    && share.encryptedNoteKey.context
       == ShareContext(w.cryptoOwnerId, w.noteId, epoch, userId, share.sharingKeyVersion, share.senderUserId)
  }

  /** What a preparation sealed opens to its new key and to the title it was prepared from. */
  ghost predicate PreparedOk(w: World, p: Preparation) {
    && p.rootVersion in w.titles
    && OpenEnvelope(p.encryptedNoteKey, w.rootKey, OwnerContext(w.cryptoOwnerId, w.noteId, p.targetEpoch)) == Some(p.targetKey)
    && OpenEnvelope(p.titleCipher, p.targetKey, TitleContext(w.cryptoOwnerId, w.noteId, p.targetEpoch)) == Some(w.titles[p.rootVersion])
  }

  ghost predicate CustodyInv(w: World) {
    && ChainInv(w) && RowOpens(w)
    && (forall u :: u in w.t.shares ==> ShareOk(w, u))
    && (forall p :: p in w.retained ==> PreparedOk(w, p))
    && (forall r :: r in w.titles ==> r <= w.t.note.value.rootVersion)
  }

  // ----- steps -----

  /** Keys and titles that were in force stay known, and the note keeps its names. */
  ghost predicate Remembers(before: World, after: World) {
    && after.cryptoOwnerId == before.cryptoOwnerId && after.noteId == before.noteId && after.rootKey == before.rootKey
    && (forall e :: e in before.keys ==> e in after.keys && after.keys[e] == before.keys[e])
    && (forall r :: r in before.titles ==> r in after.titles && after.titles[r] == before.titles[r])
  }

  lemma ShareStaysOk(before: World, after: World, userId: Id)
    requires ShareOk(before, userId) && Remembers(before, after)
    requires userId in after.t.shares && after.t.shares[userId] == before.t.shares[userId]
    ensures ShareOk(after, userId)
  {
  }

  lemma PreparedStaysOk(before: World, after: World, p: Preparation)
    requires PreparedOk(before, p) && Remembers(before, after)
    ensures PreparedOk(after, p)
  {
  }

  /** The shares are those from before and some that hold the key of a known epoch. */
  lemma Assemble(before: World, after: World)
    requires CustodyInv(before) && ChainInv(after) && RowOpens(after) && Remembers(before, after)
    requires forall u :: u in after.t.shares ==> (u in before.t.shares && after.t.shares[u] == before.t.shares[u]) || ShareOk(after, u)
    requires forall p :: p in after.retained ==> p in before.retained || PreparedOk(after, p)
    requires forall r :: r in after.titles ==> r <= after.t.note.value.rootVersion
    ensures CustodyInv(after)
  {
    hide ChainInv, RowOpens, ShareOk, PreparedOk, Remembers;
    forall u | u in after.t.shares ensures ShareOk(after, u) {
      if u in before.t.shares && after.t.shares[u] == before.t.shares[u] {
        ShareStaysOk(before, after, u);
      }
    }
    forall p | p in after.retained ensures PreparedOk(after, p) {
      if p in before.retained {
        PreparedStaysOk(before, after, p);
      }
    }
  }

  lemma InviteKeepsCustody(w: World, step: Step)
    requires CustodyInv(w) && Enabled(w, step) && step.InviteStep?
    ensures CustodyInv(Next(w, step))
  {
    hide ChainInv, ShareOk, PreparedOk;
    StepKeepsChain(w, step);
    var next := Next(w, step);
    InviteTerms(w.t, step.actorUserId, step.recipientUserId, step.role, step.sharingKeyVersion,
                EncryptNoteKeyShare(w.cryptoOwnerId, w.noteId, step.view.keyEpoch, step.view.noteKey,
                                    SharingKey(step.recipientUserId, step.sharingKeyVersion), step.actorUserId));
    if next != w {
      InvitedShareOk(w, step);
    }
    Assemble(w, next);
  }

  lemma InvitedShareOk(w: World, step: Step)
    requires Enabled(w, step) && step.InviteStep? && Next(w, step) != w
    ensures ShareOk(Next(w, step), step.recipientUserId)
  {
  }

  lemma TitleKeepsCustody(w: World, step: Step)
    requires CustodyInv(w) && Enabled(w, step) && step.TitleStep?
    ensures CustodyInv(Next(w, step))
  {
    hide ShareOk, PreparedOk, NoteUpdated, ChainInv, MaySave;
    StepKeepsChain(w, step);
    UpdateTerms(w.t, SaveOf(w, step));
    SaveIsOf(w, SaveOf(w, step));
    Assemble(w, Next(w, step));
  }

  lemma SaveIsOf(w: World, input: UpdateInput)
    ensures MaySave(w.t, input) ==> w.t.note.Some? && w.t.note.value.rootVersion == input.rootVersion && w.t.note.value.keyEpoch == input.keyEpoch
  {
  }

  lemma OtherKeepsCustody(w: World, step: Step)
    requires CustodyInv(w) && Enabled(w, step) && !step.InviteStep? && !step.TitleStep? && !step.RotateStep?
    ensures CustodyInv(Next(w, step))
  {
    hide ShareOk, ChainInv;
    StepKeepsChain(w, step);
    Assemble(w, Next(w, step));
  }

  /** Each share a rotation writes is for its recipient, with the new key, sealed for the new epoch. */
  lemma RotatedShareOk(w: World, step: Step, u: Id)
    requires step.RotateStep? && Rotated(w.t, InputOf(w, step)).1.RotatedTo?
    requires u in Next(w, step).t.shares && (u !in w.t.shares || Next(w, step).t.shares[u] != w.t.shares[u])
    ensures ShareOk(Next(w, step), u) && Next(w, step).t.shares[u].encryptedNoteKey.context.keyEpoch == step.preparation.targetEpoch
  {
    hide Rotated, RotationGate, NoteRotated, OffersExactly;
    RotationTerms(w.t, InputOf(w, step));
    var shares := InputOf(w, step).shares;
    var i :| 0 <= i < |shares| && shares[i].recipientUserId == u;
    assert IsOffered(Next(w, step).t.shares, step.actorUserId, shares[i]);
  }

  lemma RotatedRowOpens(w: World, step: Step)
    requires CustodyInv(w) && Enabled(w, step) && step.RotateStep? && Rotated(w.t, InputOf(w, step)).1.RotatedTo?
    ensures RowOpens(Next(w, step)) && Remembers(w, Next(w, step))
    ensures Next(w, step).t.note.value.rootVersion == w.t.note.value.rootVersion + 1
    ensures Next(w, step).titles.Keys == w.titles.Keys + {w.t.note.value.rootVersion + 1}
    ensures Next(w, step).titles[w.t.note.value.rootVersion + 1] == w.titles[w.t.note.value.rootVersion]
  {
    hide Rotated, ShareOk, OffersExactly, IsOffered;
    RotationTerms(w.t, InputOf(w, step));
    assert PreparedOk(w, step.preparation);
  }

  lemma RotateKeepsCustody(w: World, step: Step)
    requires CustodyInv(w) && Enabled(w, step) && step.RotateStep?
    ensures CustodyInv(Next(w, step))
  {
    hide Rotated, ShareOk, PreparedOk, ChainInv;
    var next := Next(w, step);
    StepKeepsChain(w, step);
    RotationRefusedOrDone(w.t, InputOf(w, step));
    if Rotated(w.t, InputOf(w, step)).1.RotatedTo? {
      RotatedRowOpens(w, step);
      forall u | u in next.t.shares ensures (u in w.t.shares && next.t.shares[u] == w.t.shares[u]) || ShareOk(next, u) {
        if !(u in w.t.shares && next.t.shares[u] == w.t.shares[u]) {
          RotatedShareOk(w, step, u);
        }
      }
      Assemble(w, next);
    }
  }

  lemma StepKeepsCustody(w: World, step: Step)
    requires CustodyInv(w) && Enabled(w, step)
    ensures CustodyInv(Next(w, step))
  {
    hide CustodyInv, Enabled, Next;
    match step
    case InviteStep(_, _, _, _, _) => InviteKeepsCustody(w, step);
    case TitleStep(_, _, _, _) => TitleKeepsCustody(w, step);
    case RotateStep(_, _, _) => RotateKeepsCustody(w, step);
    case _ => OtherKeepsCustody(w, step);
  }

  lemma {:induction false} RunKeepsCustody(w: World, steps: seq<Step>)
    requires CustodyInv(w) && EnabledRun(w, steps)
    ensures CustodyInv(Run(w, steps))
    decreases |steps|
  {
    hide CustodyInv, Enabled, Next;
    if steps != [] {
      StepKeepsCustody(w, steps[0]);
      RunKeepsCustody(Next(w, steps[0]), steps[1..]);
    }
  }

  lemma NewNoteIsInCustody(w: World)
    requires Initial(w)
    ensures CustodyInv(w)
  {
  }

  // ----- results -----

  /**
   Over every run of invitations, role changes, revocations, edits, rotations and retries, however
   stale the views behind them: the owner's row opens to the key in force, that key opens the title of
   the present version, and with any listing of the links it gives the key of every earlier epoch.
   */
  lemma OwnerReadsEverything(w: World, steps: seq<Step>, links: seq<EpochLink>, target: int)
    requires Initial(w) && EnabledRun(w, steps) && ListsLinks(links, Run(w, steps).t.links)
    ensures var last := Run(w, steps);
      && RowOpens(last)
      && (1 <= target <= last.t.note.value.keyEpoch ==>
            && target in last.keys
            && WalkBack(last.cryptoOwnerId, last.noteId, last.t.note.value.keyEpoch, target, OwnersKey(last).value, links) == Some(last.keys[target]))
  {
    hide Run, ListsLinks, RowOpens, ChainInv, ShareOk, PreparedOk;
    NewNoteIsInCustody(w);
    RunKeepsCustody(w, steps);
    var last := Run(w, steps);
    OwnerHasKey(last);
    if 1 <= target <= last.t.note.value.keyEpoch {
      KeysAreKnown(last, target);
      ChainWalks(last, last.t.note.value.keyEpoch, target, links);
    }
  }

  lemma OwnerHasKey(w: World)
    requires RowOpens(w)
    ensures w.t.note.Some? && w.t.note.value.keyEpoch as int in w.keys && OwnersKey(w) == Some(w.keys[w.t.note.value.keyEpoch])
  {
  }

  lemma KeysAreKnown(w: World, target: int)
    requires ChainInv(w) && 1 <= target <= w.t.note.value.keyEpoch
    ensures target in w.keys
  {
  }

  /** What a share opens to, exactly: the key in force if it was sealed for the present epoch, and nothing otherwise. */
  lemma ShareOpensIff(w: World, steps: seq<Step>, userId: Id)
    requires Initial(w) && EnabledRun(w, steps) && userId in Run(w, steps).t.shares
    ensures var last := Run(w, steps);
      && last.t.note.Some? && last.t.note.value.keyEpoch as int in last.keys
      && (MembersKey(last, userId).Some? <==>
            last.t.shares[userId].encryptedNoteKey.context.keyEpoch == last.t.note.value.keyEpoch)
      && (MembersKey(last, userId).Some? ==> MembersKey(last, userId) == Some(last.keys[last.t.note.value.keyEpoch]))
      && last.t.shares[userId].encryptedNoteKey.recipient.userId == userId
  {
    hide Run, ChainInv, PreparedOk;
    NewNoteIsInCustody(w);
    RunKeepsCustody(w, steps);
    assert ShareOk(Run(w, steps), userId);
  }

  // ----- who can open the note -----

  /** Every share is sealed for the present epoch. */
  ghost predicate AllCurrent(w: World) {
    w.t.note.Some? && forall u :: u in w.t.shares ==> w.t.shares[u].encryptedNoteKey.context.keyEpoch == w.t.note.value.keyEpoch
  }

  /** The invitation was sealed from a view of the epoch it is stored in. */
  predicate UpToDate(w: World, step: Step) { step.InviteStep? ==> w.t.note.Some? && step.view.keyEpoch == w.t.note.value.keyEpoch }

  ghost predicate UpToDateRun(w: World, steps: seq<Step>)
    decreases |steps|
  {
    steps == [] || (UpToDate(w, steps[0]) && UpToDateRun(Next(w, steps[0]), steps[1..]))
  }

  /** A rotation leaves no share of an earlier epoch, whatever there was before. */
  lemma RotationMakesAllCurrent(w: World, step: Step)
    requires SharesTrack(w.t) && step.RotateStep? && Rotated(w.t, InputOf(w, step)).1.RotatedTo?
    ensures AllCurrent(Next(w, step))
  {
    hide Rotated, SharesTrack, OffersExactly, IsOffered, RotationGate;
    var next := Next(w, step);
    RotationKeepsShares(w.t, InputOf(w, step));
    RotationTerms(w.t, InputOf(w, step));
    forall u | u in next.t.shares ensures next.t.shares[u].encryptedNoteKey.context.keyEpoch == next.t.note.value.keyEpoch {
      var i :| OfferedAt(next.t.shares[u], step.actorUserId, u, InputOf(w, step).shares, i);
    }
  }

  lemma StepKeepsCurrent(w: World, step: Step)
    requires SharesTrack(w.t) && Enabled(w, step) && AllCurrent(w) && UpToDate(w, step)
    ensures AllCurrent(Next(w, step))
  {
    hide Rotated, SharesTrack;
    if step.RotateStep? {
      RotationRefusedOrDone(w.t, InputOf(w, step));
      if Rotated(w.t, InputOf(w, step)).1.RotatedTo? {
        RotationMakesAllCurrent(w, step);
      }
    }
  }

  lemma {:induction false} RunKeepsCurrent(w: World, steps: seq<Step>)
    requires SharesTrack(w.t) && EnabledRun(w, steps) && AllCurrent(w) && UpToDateRun(w, steps)
    ensures AllCurrent(Run(w, steps))
    decreases |steps|
  {
    hide SharesTrack, AllCurrent, UpToDate, Enabled, Next;
    if steps != [] {
      StepKeepsShares(w, steps[0]);
      StepKeepsCurrent(w, steps[0]);
      RunKeepsCurrent(Next(w, steps[0]), steps[1..]);
    }
  }

  /** This user holds the key in force and reaches every earlier key with it. */
  ghost predicate ReadsEverything(w: World, userId: Id, links: seq<EpochLink>) {
    && w.t.note.Some? && w.t.note.value.keyEpoch as int in w.keys && MembersKey(w, userId) == Some(w.keys[w.t.note.value.keyEpoch])
    && forall target :: 1 <= target <= w.t.note.value.keyEpoch ==>
         && target in w.keys
         && WalkBack(w.cryptoOwnerId, w.noteId, w.t.note.value.keyEpoch, target, MembersKey(w, userId).value, links) == Some(w.keys[target])
  }

  /**
   Over every run whose invitations were each sealed from a view of the epoch in force, every active
   collaborator opens its share to the key in force and reaches the key of every epoch from it.
   */
  lemma EveryCollaboratorReads(w: World, steps: seq<Step>, links: seq<EpochLink>, userId: Id)
    requires Initial(w) && EnabledRun(w, steps) && UpToDateRun(w, steps) && ListsLinks(links, Run(w, steps).t.links)
    requires userId in Collaborators(Run(w, steps).t.members)
    ensures ReadsEverything(Run(w, steps), userId, links)
  {
    hide Run, ListsLinks, RowOpens, ChainInv, ShareOk, PreparedOk, Collaborators, UpToDateRun, EnabledRun, MembersKey;
    SharesAreForCollaborators(w, steps);
    NewSharesTrack(w);
    RunKeepsCurrent(w, steps);
    ShareOpensIff(w, steps, userId);
    NewNoteIsInCustody(w);
    RunKeepsCustody(w, steps);
    KeyReadsEverything(Run(w, steps), userId, links);
  }

  lemma NewSharesTrack(w: World)
    requires Initial(w)
    ensures SharesTrack(w.t) && AllCurrent(w)
  {
    var owner :| w.t.members == map[owner := Member(Owner, Active)];
    assert Collaborators(w.t.members) == {};
  }

  lemma KeyReadsEverything(w: World, userId: Id, links: seq<EpochLink>)
    requires ChainInv(w) && ListsLinks(links, w.t.links) && MembersKey(w, userId) == Some(w.keys[w.t.note.value.keyEpoch])
    ensures ReadsEverything(w, userId, links)
  {
    hide ChainInv, ListsLinks, MembersKey;
    OwnersEpochIsKnown(w);
    forall target | 1 <= target <= w.t.note.value.keyEpoch
      ensures target in w.keys
        && WalkBack(w.cryptoOwnerId, w.noteId, w.t.note.value.keyEpoch, target, MembersKey(w, userId).value, links) == Some(w.keys[target])
    {
      KeysAreKnown(w, target);
      ChainWalks(w, w.t.note.value.keyEpoch, target, links);
    }
  }

  lemma OwnersEpochIsKnown(w: World)
    requires ChainInv(w)
    ensures w.t.note.Some? && w.t.note.value.keyEpoch as int in w.keys
  {
  }

  /**
   After any run at all, a rotation that goes through makes the key in force one that the owner and
   every collaborator that stays open, that the revoked user has no share of, and that opens the same
   title the key before it opened.
   */
  lemma RotationReachesEveryone(w: World, steps: seq<Step>, step: Step, userId: Id)
    requires Initial(w) && EnabledRun(w, steps) && Enabled(Run(w, steps), step)
    requires step.RotateStep? && Rotated(Run(w, steps).t, InputOf(Run(w, steps), step)).1.RotatedTo?
    ensures var before, after := Run(w, steps), Next(Run(w, steps), step);
      && OwnersKey(after) == Some(step.preparation.targetKey)
      && (MembersKey(after, userId).Some? <==> userId in Collaborators(before.t.members) && userId != step.preparation.revokedUserId)
      && (MembersKey(after, userId).Some? ==> MembersKey(after, userId) == Some(step.preparation.targetKey))
      && OwnersKey(before).Some? && TitleUnder(before, OwnersKey(before).value).Some?
      && TitleUnder(after, step.preparation.targetKey) == TitleUnder(before, OwnersKey(before).value)
  {
    hide Run, ChainInv, PreparedOk, Rotated, RotationGate, Collaborators, EnabledRun, OfferedTo, Enabled;
    var before, after := Run(w, steps), Next(Run(w, steps), step);
    NewNoteIsInCustody(w);
    RunKeepsCustody(w, steps);
    RotationReplacesEveryShare(w, steps, InputOf(before, step));
    RunKeepsSharesFromStart(w, steps);
    RotationMakesAllCurrent(before, step);
    RotatedRowOpens(before, step);
    RotateKeepsCustody(before, step);
    KeyIsTarget(before, step);
  }

  lemma RunKeepsSharesFromStart(w: World, steps: seq<Step>)
    requires Initial(w) && EnabledRun(w, steps)
    ensures SharesTrack(Run(w, steps).t)
  {
    NewSharesTrack(w);
    RunKeepsShares(w, steps);
  }

  lemma KeyIsTarget(w: World, step: Step)
    requires step.RotateStep? && Rotated(w.t, InputOf(w, step)).1.RotatedTo?
    ensures Next(w, step).t.note.Some? && Next(w, step).t.note.value.keyEpoch == step.preparation.targetEpoch
    ensures step.preparation.targetEpoch in Next(w, step).keys && Next(w, step).keys[step.preparation.targetEpoch] == step.preparation.targetKey
  {
    hide Rotated, OffersExactly, IsOffered;
    RotationTerms(w.t, InputOf(w, step));
  }

  // ----- a run that locks a collaborator out -----

  const FIRST_VIEW := NoteView(1, 1, 10, 5)

  /** Owner 1 of note 2, with sharing keys published for users 3 and 4. */
  function ExampleStart(): World {
    World(1, 2, 7,
          Tables(Some(NoteRow(1, 1, 1, false, false, Envelope(10, 7, OwnerContext(1, 2, 1)), Envelope(5, 10, TitleContext(1, 2, 1)))),
                 map[1 := Member(Owner, Active)], map[], map[], {SharingKey(3, 1), SharingKey(4, 1)}),
          map[1 := 10], map[1 := 5], {})
  }

  function ExampleSteps(): seq<Step> {
    [InviteStep(1, FIRST_VIEW, 3, Editor, 1),
     PrepareStep(FIRST_VIEW, 3, 11),
     RotateStep(1, PrepareLinkedEpochRotation(1, 2, FIRST_VIEW, 3, 7, 11), []),
     InviteStep(1, FIRST_VIEW, 4, Editor, 1)]
  }

  /** The invitation of user 4 was sealed before user 3 was rotated out and stored after: user 4 is let in and can open nothing. */
  lemma StaleInviteLocksOut()
    ensures Initial(ExampleStart()) && EnabledRun(ExampleStart(), ExampleSteps())
    ensures var last := Run(ExampleStart(), ExampleSteps());
      4 in Collaborators(last.t.members) && 4 in last.t.shares && MembersKey(last, 4) == None
  {
    var steps, w := ExampleSteps(), ExampleStart();
    var a := Next(w, steps[0]);
    var b := Next(a, steps[1]);
    NothingOffered(b, steps[2]);
    var c := Next(b, steps[2]);
    var d := Next(c, steps[3]);
    assert w.t.members == map[1 := Member(Owner, Active)];
    assert steps[1..][1..] == steps[2..] && steps[2..][1..] == steps[3..] && steps[3..][1..] == [];
    assert Run(w, steps) == Run(a, steps[1..]) == Run(b, steps[2..]) == Run(c, steps[3..]) == Run(d, []);
    assert EnabledRun(c, steps[3..]);
    assert EnabledRun(b, steps[2..]);
    assert EnabledRun(a, steps[1..]);
  }

  lemma NothingOffered(w: World, step: Step)
    requires step.RotateStep? && step.recipients == [] && Collaborators(w.t.members) == {step.preparation.revokedUserId}
    ensures SharesFit(w.t.members, step.preparation.revokedUserId, InputOf(w, step).shares)
  {
    assert Recipients(InputOf(w, step).shares) == [];
  }
}
