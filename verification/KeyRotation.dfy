/**
 Who holds a note's key, and how old epochs stay readable: shares track the collaborators over
 every run, and the chain of epoch links leads back from the current key to every earlier one.
 */
module KeyRotation {
  import opened Basics
  import opened SectionHistory
  import opened NoteSharing

  // ----- runs -----

  /** A rotation as the owner's client prepares it, with the new key it chose and everything it sealed. */
  datatype Preparation = Preparation(
    revokedUserId: Id, rootVersion: nat, sourceEpoch: int, targetEpoch: int, targetKey: Key, encryptedNoteKey: Envelope,
    titleCipher: Envelope, previousKey: Envelope)

  /** The note as some client last loaded it, with the key and the title it decrypted. */
  datatype NoteView = NoteView(rootVersion: nat, keyEpoch: nat, noteKey: Key, title: Secret)

  /**
   `rootKey` is the owner's; `keys` is the key in force at each epoch, `titles` the title at each root
   version, and `retained` every preparation some tab still holds.
   */
  datatype World = World(
    cryptoOwnerId: Id, noteId: Id, rootKey: Key, t: Tables, keys: map<int, Key>, titles: map<nat, Secret>, retained: set<Preparation>)

  datatype Step =
    | InviteStep(actorUserId: Id, view: NoteView, recipientUserId: Id, role: Role, sharingKeyVersion: nat)
    | RoleStep(userId: Id, role: Role)
    | RevokeStep(userId: Id)
    | PrepareStep(view: NoteView, revokedUserId: Id, targetKey: Key)
    | RotateStep(actorUserId: Id, preparation: Preparation, recipients: seq<SharingKey>)
    | TitleStep(actorUserId: Id, view: NoteView, title: Secret, folderAccepted: bool)
    | EditNoteStep(note: NoteRow)
    | PublishKeyStep(sharingKey: SharingKey)

  function LinkContextOf(w: World, sourceEpoch: int, targetEpoch: int): Context {
    LinkContext(w.cryptoOwnerId, w.noteId, sourceEpoch, targetEpoch)
  }

  /** prepareLinkedEpochRotation: a fresh key sealed for the owner, and the title and key of the view sealed under it. */
  function PrepareLinkedEpochRotation(cryptoOwnerId: Id, noteId: Id, view: NoteView, revokedUserId: Id, rootKey: Key, targetKey: Key): Preparation {
    var targetEpoch := view.keyEpoch + 1;
    Preparation(revokedUserId, view.rootVersion, view.keyEpoch, targetEpoch, targetKey,
                Envelope(targetKey, rootKey, OwnerContext(cryptoOwnerId, noteId, targetEpoch)),
                Envelope(view.title, targetKey, TitleContext(cryptoOwnerId, noteId, targetEpoch)),
                Envelope(view.noteKey, targetKey, LinkContext(cryptoOwnerId, noteId, view.keyEpoch, targetEpoch)))
  }

  /** encryptNoteKeyShareV2: a note key for one recipient's sharing key, with its context inside. */
  function EncryptNoteKeyShare(cryptoOwnerId: Id, noteId: Id, keyEpoch: int, noteKey: Key, recipient: SharingKey, senderUserId: Id): SealedShare {
    SealedShare(noteKey, recipient, ShareContext(cryptoOwnerId, noteId, keyEpoch, recipient.userId, recipient.version, senderUserId))
  }

  /** linkedEpochPreparationMatches: may a retained preparation be sent again for this view? */
  predicate PreparationMatches(p: Preparation, view: NoteView, revokedUserId: Id) {
    p.revokedUserId == revokedUserId && p.rootVersion == view.rootVersion && p.sourceEpoch == view.keyEpoch && p.targetEpoch == view.keyEpoch + 1
  }

  /** One share of the prepared key for each recipient. */
  function SharesFor(w: World, step: Step): (shares: seq<ShareInput>)
    requires step.RotateStep?
    ensures |shares| == |step.recipients|
  {
    seq(|step.recipients|, i requires 0 <= i < |step.recipients| =>
      ShareInput(step.recipients[i].userId, step.recipients[i].version,
                 EncryptNoteKeyShare(w.cryptoOwnerId, w.noteId, step.preparation.targetEpoch, step.preparation.targetKey, step.recipients[i], step.actorUserId)))
  }

  function InputOf(w: World, step: Step): RotationInput
    requires step.RotateStep?
  {
    var p := step.preparation;
    RotationInput(step.actorUserId, p.revokedUserId, p.rootVersion, p.sourceEpoch, p.targetEpoch, SharesFor(w, step),
                  p.encryptedNoteKey, p.titleCipher, p.previousKey, 2)
  }

  /** A save seals the title under the key and for the epoch of its view, and names both. */
  function SaveOf(w: World, step: Step): UpdateInput
    requires step.TitleStep?
  {
    UpdateInput(step.actorUserId, step.view.rootVersion, step.view.keyEpoch,
                Some(Envelope(step.title, step.view.noteKey, TitleContext(w.cryptoOwnerId, w.noteId, step.view.keyEpoch))), None, false,
                step.folderAccepted)
  }

  /** What the title is once the note row has its next version. */
  function TitlesWith(w: World, after: Tables, title: Secret): map<nat, Secret> {
    if after.note.Some? && after.note != w.t.note then w.titles[after.note.value.rootVersion := title] else w.titles
  }

  function TitleNow(w: World): Secret {
    if w.t.note.Some? && w.t.note.value.rootVersion in w.titles then w.titles[w.t.note.value.rootVersion] else 0
  }

  ghost function Next(w: World, step: Step): World {
    match step
    case InviteStep(actor, view, recipient, role, version) =>
      w.(t := MemberInvited(w.t, actor, recipient, role, version,
                            EncryptNoteKeyShare(w.cryptoOwnerId, w.noteId, view.keyEpoch, view.noteKey, SharingKey(recipient, version), actor)).0)
    case RoleStep(userId, role) => w.(t := RoleUpdated(w.t, userId, role))
    case RevokeStep(userId) => w.(t := RevokedFrom(w.t, userId))
    case PrepareStep(view, revokedUserId, targetKey) =>
      w.(retained := w.retained + {PrepareLinkedEpochRotation(w.cryptoOwnerId, w.noteId, view, revokedUserId, w.rootKey, targetKey)})
    case RotateStep(_, p, _) =>
      var (t, outcome) := Rotated(w.t, InputOf(w, step));
      w.(t := t, keys := if outcome.RotatedTo? then w.keys[p.targetEpoch := p.targetKey] else w.keys, titles := TitlesWith(w, t, TitleNow(w)))
    case TitleStep(_, _, title, _) =>
      var t := NoteUpdated(w.t, SaveOf(w, step)).0;
      w.(t := t, titles := TitlesWith(w, t, title))
    case EditNoteStep(note) =>
      var t := w.t.(note := Some(note));
      w.(t := t, titles := TitlesWith(w, t, TitleNow(w)))
    case PublishKeyStep(sharingKey) => w.(t := w.t.(sharingKeys := w.t.sharingKeys + {sharingKey}))
  }

  /** A view is some state the note was in, however long ago. */
  ghost predicate TrueView(w: World, view: NoteView) {
    && view.keyEpoch in w.keys && view.noteKey == w.keys[view.keyEpoch]
    && view.rootVersion in w.titles && view.title == w.titles[view.rootVersion]
  }

  /**
   Clients only see true states, however stale; invitations and role changes never hand out
   ownership; other changes of the note row, such as deleting it or editing its sections, leave its
   epoch, its sealed key and its title as they are.
   */
  ghost predicate Enabled(w: World, step: Step) {
    match step
    case InviteStep(_, view, _, role, _) => !role.Owner? && TrueView(w, view)
    case RoleStep(_, role) => !role.Owner?
    case PrepareStep(view, _, _) => TrueView(w, view)
    case RotateStep(_, p, _) => p in w.retained
    case TitleStep(_, view, _, _) => TrueView(w, view)
    case EditNoteStep(note) =>
      && w.t.note.Some? && note.keyEpoch == w.t.note.value.keyEpoch
      && note.encryptedNoteKey == w.t.note.value.encryptedNoteKey && note.titleCipher == w.t.note.value.titleCipher
      && w.t.note.value.rootVersion <= note.rootVersion <= w.t.note.value.rootVersion + 1
    case _ => true
  }

  ghost predicate EnabledRun(w: World, steps: seq<Step>)
    decreases |steps|
  {
    steps == [] || (Enabled(w, steps[0]) && EnabledRun(Next(w, steps[0]), steps[1..]))
  }

  ghost function Run(w: World, steps: seq<Step>): World
    decreases |steps|
  {
    if steps == [] then w else Run(Next(w, steps[0]), steps[1..])
  }

  /** A new note: its owner, one key sealed for the owner, a title sealed under it, no shares and no links. */
  ghost predicate Initial(w: World) {
    && w.t.note.Some? && w.t.note.value.keyEpoch == 1
    && w.keys.Keys == {1} && w.titles.Keys == {w.t.note.value.rootVersion}
    && w.t.note.value.encryptedNoteKey == Envelope(w.keys[1], w.rootKey, OwnerContext(w.cryptoOwnerId, w.noteId, 1))
    && w.t.note.value.titleCipher == Envelope(w.titles[w.t.note.value.rootVersion], w.keys[1], TitleContext(w.cryptoOwnerId, w.noteId, 1))
    && (exists owner :: w.t.members == map[owner := Member(Owner, Active)])
    && w.t.shares == map[] && w.t.links == map[] && w.retained == {}
  }

  // ----- shares track membership -----

  ghost predicate SharesTrack(t: Tables) {
    t.shares.Keys == Collaborators(t.members)
  }

  lemma {:induction false} UpsertedKeys(shares: map<Id, Share>, actorUserId: Id, input: seq<ShareInput>)
    ensures forall u :: u in Upserted(shares, actorUserId, input) <==> u in shares || u in Recipients(input)
    ensures forall u :: u in Upserted(shares, actorUserId, input) && u !in Recipients(input) ==>
      Upserted(shares, actorUserId, input)[u] == shares[u]
    ensures forall u :: u in Recipients(input) ==> OfferedTo(Upserted(shares, actorUserId, input)[u], actorUserId, u, input)
  {
    if input != [] {
      var init := input[..|input| - 1];
      var last := input[|input| - 1];
      UpsertedKeys(shares, actorUserId, init);
      assert Recipients(input) == Recipients(init) + [last.recipientUserId];
      forall u | u in Recipients(input) ensures OfferedTo(Upserted(shares, actorUserId, input)[u], actorUserId, u, input) {
        if u == last.recipientUserId {
          assert OfferedAt(Upserted(shares, actorUserId, input)[u], actorUserId, u, input, |input| - 1);
        } else {
          var i :| OfferedAt(Upserted(shares, actorUserId, init)[u], actorUserId, u, init, i);
          assert OfferedAt(Upserted(shares, actorUserId, input)[u], actorUserId, u, input, i);
        }
      }
    } else {
      assert Recipients(input) == [];
    }
  }

  predicate OfferedAt(share: Share, actorUserId: Id, u: Id, input: seq<ShareInput>, i: int) {
    && 0 <= i < |input| && input[i].recipientUserId == u
    && share == Share(actorUserId, input[i].sharingKeyVersion, input[i].encryptedNoteKey)
  }

  /** The share is the one this rotation offered to the user. */
  ghost predicate OfferedTo(share: Share, actorUserId: Id, u: Id, input: seq<ShareInput>) {
    exists i :: OfferedAt(share, actorUserId, u, input, i)
  }

  lemma RotationKeepsShares(t: Tables, input: RotationInput)
    requires SharesTrack(t) && Rotated(t, input).1.RotatedTo?
    ensures SharesTrack(Rotated(t, input).0)
    ensures forall u :: u in Rotated(t, input).0.shares ==>
      OfferedTo(Rotated(t, input).0.shares[u], input.actorUserId, u, input.shares)
  {
    hide Rotated, Distinct, Upserted;
    RotationRefusedOrDone(t, input);
    var base := t.shares - {input.revokedUserId};
    UpsertedKeys(base, input.actorUserId, input.shares);
    var next := Rotated(t, input).0;
    forall u ensures u in next.shares <==> u in Collaborators(next.members) {
      assert u in Recipients(input.shares) <==> u in Collaborators(t.members) - {input.revokedUserId};
      assert u in t.shares <==> u in Collaborators(t.members);
    }
    forall u | u in next.shares ensures OfferedTo(next.shares[u], input.actorUserId, u, input.shares) {
      assert u in Collaborators(t.members) - {input.revokedUserId};
    }
  }

  lemma StepKeepsShares(w: World, step: Step)
    requires SharesTrack(w.t) && Enabled(w, step)
    ensures SharesTrack(Next(w, step).t)
  {
    hide Rotated, SharesFit;
    if step.RotateStep? {
      RotationRefusedOrDone(w.t, InputOf(w, step));
      if Rotated(w.t, InputOf(w, step)).1.RotatedTo? {
        RotationKeepsShares(w.t, InputOf(w, step));
      }
    } else {
      PlainStepKeepsShares(w, step);
    }
  }

  lemma PlainStepKeepsShares(w: World, step: Step)
    requires SharesTrack(w.t) && Enabled(w, step) && !step.RotateStep?
    ensures SharesTrack(Next(w, step).t)
  {
    hide PrepareLinkedEpochRotation;
    var next := Next(w, step).t;
    forall u ensures u in next.shares <==> u in Collaborators(next.members) {
      assert u in w.t.shares <==> u in Collaborators(w.t.members);
    }
  }

  lemma RotationRefusedOrDone(t: Tables, input: RotationInput)
    ensures !Rotated(t, input).1.RotatedTo? ==> Rotated(t, input).0 == t
    ensures Rotated(t, input).1.RotatedTo? ==>
      && RotationGate(t, input).None? && input.targetEpoch !in t.links
      && t.note.Some? && input.revokedUserId in t.members && input.revokedUserId in Collaborators(t.members)
      && SharesFit(t.members, input.revokedUserId, input.shares)
      && Rotated(t, input).0 == Rotation(t, input)
  {
    hide SharesFit, Rotation;
  }

  lemma {:induction false} RunKeepsShares(w: World, steps: seq<Step>)
    requires SharesTrack(w.t) && EnabledRun(w, steps)
    ensures SharesTrack(Run(w, steps).t)
    decreases |steps|
  {
    hide SharesTrack, Enabled, Next;
    if steps != [] {
      StepKeepsShares(w, steps[0]);
      RunKeepsShares(Next(w, steps[0]), steps[1..]);
    }
  }

  /** Over any run from a note's creation, the users with a key share are exactly the active non-owner members. */
  lemma SharesAreForCollaborators(w: World, steps: seq<Step>)
    requires Initial(w) && EnabledRun(w, steps)
    ensures Run(w, steps).t.shares.Keys == Collaborators(Run(w, steps).t.members)
  {
    var owner :| w.t.members == map[owner := Member(Owner, Active)];
    assert Collaborators(w.t.members) == {};
    RunKeepsShares(w, steps);
  }

  /**
   Right after a rotation the revoked user has no share, everyone who stays has one, and every
   share was sealed by this rotation: no earlier key copy survives.
   */
  lemma RotationReplacesEveryShare(w: World, steps: seq<Step>, input: RotationInput)
    requires Initial(w) && EnabledRun(w, steps)
    requires Rotated(Run(w, steps).t, input).1.RotatedTo?
    ensures var before, after := Run(w, steps).t, Rotated(Run(w, steps).t, input).0;
      && after.shares.Keys == Collaborators(before.members) - {input.revokedUserId}
      && (forall u :: u in after.shares ==> OfferedTo(after.shares[u], input.actorUserId, u, input.shares))
  {
    hide Rotated, OfferedTo, SharesFit, Upserted;
    SharesAreForCollaborators(w, steps);
    RotationKeepsShares(Run(w, steps).t, input);
    RotationRefusedOrDone(Run(w, steps).t, input);
    var before, after := Run(w, steps).t, Rotated(Run(w, steps).t, input).0;
    forall u ensures u in after.shares <==> u in Collaborators(before.members) - {input.revokedUserId} {
      assert u in after.shares <==> u in Collaborators(after.members);
    }
  }

  // ----- walking the links back -----

  function FindLink(links: seq<EpochLink>, epoch: int): Option<EpochLink> {
    if links == [] then None else if links[0].targetEpoch == epoch then Some(links[0]) else FindLink(links[1..], epoch)
  }

  /** One step back: the link for this epoch must be adjacent, of format two, and open. */
  function StepBack(cryptoOwnerId: Id, noteId: Id, epoch: int, key: Key, links: seq<EpochLink>): Option<Key> {
    var link := FindLink(links, epoch);
    if link.None? || link.value.sourceEpoch != epoch - 1 || link.value.formatVersion != 2 then None
    else OpenEnvelope(link.value.cipher, key, LinkContext(cryptoOwnerId, noteId, link.value.sourceEpoch, link.value.targetEpoch))
  }

  function WalkBack(cryptoOwnerId: Id, noteId: Id, epoch: int, target: int, key: Key,
      links: seq<EpochLink>): Option<Key>
    decreases epoch - target
  {
    if epoch <= target then Some(key)
    else
      var previous := StepBack(cryptoOwnerId, noteId, epoch, key, links);
      if previous.None? then None else WalkBack(cryptoOwnerId, noteId, epoch - 1, target, previous.value, links)
  }

  method TraverseEpochLinksBackward(cryptoOwnerId: Id, noteId: Id, currentEpoch: int, targetEpoch: int,
      currentNoteKey: Key, links: seq<EpochLink>)
    returns (result: Option<Key>)
    ensures targetEpoch <= 0 || targetEpoch > currentEpoch ==> result.None?
    ensures 0 < targetEpoch <= currentEpoch ==> result == WalkBack(cryptoOwnerId, noteId, currentEpoch, targetEpoch, currentNoteKey, links)
  {
    if targetEpoch <= 0 || targetEpoch > currentEpoch {
      return None;
    }
    var epoch, noteKey := currentEpoch, currentNoteKey;
    while epoch > targetEpoch
      invariant targetEpoch <= epoch <= currentEpoch
      invariant WalkBack(cryptoOwnerId, noteId, currentEpoch, targetEpoch, currentNoteKey, links)
             == WalkBack(cryptoOwnerId, noteId, epoch, targetEpoch, noteKey, links)
      decreases epoch
    {
      var link := FindLink(links, epoch);
      if link.None? || link.value.sourceEpoch != epoch - 1 || link.value.formatVersion != 2 {
        return None;
      }
      var previous := OpenEnvelope(link.value.cipher, noteKey, LinkContext(cryptoOwnerId, noteId, link.value.sourceEpoch, link.value.targetEpoch));
      if previous.None? {
        return None;
      }
      noteKey := previous.value;
      epoch := link.value.sourceEpoch;
    }
    return Some(noteKey);
  }

  /** resolveNoteKeyAtEpoch: the current key needs no links. */
  method ResolveNoteKeyAtEpoch(cryptoOwnerId: Id, noteId: Id, view: NoteView, targetEpoch: int,
      links: seq<EpochLink>) returns (result: Option<Key>)
    ensures targetEpoch == view.keyEpoch ==> result == Some(view.noteKey)
    ensures 0 < targetEpoch <= view.keyEpoch ==> result == WalkBack(cryptoOwnerId, noteId, view.keyEpoch, targetEpoch, view.noteKey, links)
    ensures targetEpoch > view.keyEpoch || (targetEpoch <= 0 && targetEpoch != view.keyEpoch) ==> result.None?
  {
    if targetEpoch == view.keyEpoch {
      return Some(view.noteKey);
    }
    result := TraverseEpochLinksBackward(cryptoOwnerId, noteId, view.keyEpoch, targetEpoch, view.noteKey, links);
  }

  // ----- the chain invariant -----

  ghost predicate HonestPreparation(w: World, p: Preparation) {
    && p.sourceEpoch in w.keys
    && p.targetEpoch == p.sourceEpoch + 1
    && p.previousKey == Envelope(w.keys[p.sourceEpoch], p.targetKey, LinkContextOf(w, p.sourceEpoch, p.targetEpoch))
  }

  /** The link into an epoch seals the key before it under that epoch's key. */
  ghost predicate LinkOk(w: World, e: int) {
    && e in w.t.links && e - 1 in w.keys && e in w.keys
    && w.t.links[e] == EpochLink(e - 1, e, Envelope(w.keys[e - 1], w.keys[e], LinkContextOf(w, e - 1, e)), 2)
  }

  ghost predicate ChainInv(w: World) {
    && w.t.note.Some? && 1 <= w.t.note.value.keyEpoch
    && (forall e :: e in w.keys <==> 1 <= e <= w.t.note.value.keyEpoch)
    && (forall e :: e in w.t.links <==> 2 <= e <= w.t.note.value.keyEpoch)
    && (forall e :: e in w.t.links ==> LinkOk(w, e))
    && (forall p :: p in w.retained ==> HonestPreparation(w, p))
  }

  lemma RotateKeepsChain(w: World, step: Step)
    requires ChainInv(w) && Enabled(w, step) && step.RotateStep?
    ensures ChainInv(Next(w, step))
  {
    hide Rotated, SharesFit, Upserted;
    var input := InputOf(w, step);
    RotationRefusedOrDone(w.t, input);
    if Rotated(w.t, input).1.RotatedTo? {
      var next := Next(w, step);
      assert HonestPreparation(w, step.preparation);
      forall e | e in next.t.links ensures LinkOk(next, e) {
        if e != input.targetEpoch {
          assert LinkOk(w, e);
        }
      }
      forall p | p in next.retained ensures HonestPreparation(next, p) {
        assert HonestPreparation(w, p);
      }
    }
  }

  lemma StepKeepsChain(w: World, step: Step)
    requires ChainInv(w) && Enabled(w, step)
    ensures ChainInv(Next(w, step))
  {
    hide Rotated, Upserted;
    if step.RotateStep? {
      RotateKeepsChain(w, step);
    } else {
      var next := Next(w, step);
      forall e | e in next.t.links ensures LinkOk(next, e) {
        assert LinkOk(w, e);
      }
      forall p | p in w.retained ensures HonestPreparation(next, p) {
        assert HonestPreparation(w, p);
      }
    }
  }

  lemma {:induction false} RunKeepsChain(w: World, steps: seq<Step>)
    requires ChainInv(w) && EnabledRun(w, steps)
    ensures ChainInv(Run(w, steps))
    decreases |steps|
  {
    hide ChainInv, Enabled, Next;
    if steps != [] {
      StepKeepsChain(w, steps[0]);
      RunKeepsChain(Next(w, steps[0]), steps[1..]);
    }
  }

  lemma {:induction false} RunKeepsNames(w: World, steps: seq<Step>)
    ensures Run(w, steps).cryptoOwnerId == w.cryptoOwnerId && Run(w, steps).noteId == w.noteId
    decreases |steps|
  {
    hide Rotated, MemberInvited, RoleUpdated, RevokedFrom;
    if steps != [] {
      RunKeepsNames(Next(w, steps[0]), steps[1..]);
    }
  }

  /** A listing of the link rows in any order. */
  ghost predicate ListsLinks(links: seq<EpochLink>, rows: map<int, EpochLink>) {
    && (forall i :: 0 <= i < |links| ==> links[i].targetEpoch in rows && rows[links[i].targetEpoch] == links[i])
    && (forall e :: e in rows ==> exists i :: 0 <= i < |links| && links[i].targetEpoch == e)
  }

  lemma {:induction false} FindInListing(links: seq<EpochLink>, rows: map<int, EpochLink>, epoch: int)
    requires forall i :: 0 <= i < |links| ==> links[i].targetEpoch in rows && rows[links[i].targetEpoch] == links[i]
    ensures (exists i :: 0 <= i < |links| && links[i].targetEpoch == epoch) ==> epoch in rows && FindLink(links, epoch) == Some(rows[epoch])
  {
    if links != [] && links[0].targetEpoch != epoch {
      FindInListing(links[1..], rows, epoch);
      if i :| 0 <= i < |links| && links[i].targetEpoch == epoch {
        assert links[1..][i - 1].targetEpoch == epoch;
      }
    }
  }

  lemma {:induction false} ChainWalks(w: World, epoch: int, target: int, links: seq<EpochLink>)
    requires ChainInv(w) && ListsLinks(links, w.t.links) && 1 <= target <= epoch <= w.t.note.value.keyEpoch
    ensures WalkBack(w.cryptoOwnerId, w.noteId, epoch, target, w.keys[epoch], links) == Some(w.keys[target])
    decreases epoch - target
  {
    if epoch > target {
      assert LinkOk(w, epoch);
      FindInListing(links, w.t.links, epoch);
      ChainWalks(w, epoch - 1, target, links);
    }
  }

  /**
   After any run of rotations, retries and stale preparations, links exist for exactly the
   epochs from two to the current one, and from the current key and any listing of them the
   traversal returns the key that was in force at each epoch.
   */
  lemma EveryEpochIsReadable(w: World, steps: seq<Step>, links: seq<EpochLink>, target: int)
    requires Initial(w) && EnabledRun(w, steps)
    requires ListsLinks(links, Run(w, steps).t.links)
    ensures var last := Run(w, steps);
      && last.t.note.Some?
      && (forall e :: e in last.t.links <==> 2 <= e <= last.t.note.value.keyEpoch)
      && (1 <= target <= last.t.note.value.keyEpoch ==>
            && target in last.keys && last.t.note.value.keyEpoch as int in last.keys
            && WalkBack(w.cryptoOwnerId, w.noteId, last.t.note.value.keyEpoch, target, last.keys[last.t.note.value.keyEpoch], links)
               == Some(last.keys[target]))
  {
    hide Run, ListsLinks;
    RunKeepsChain(w, steps);
    RunKeepsNames(w, steps);
    var last := Run(w, steps);
    if 1 <= target <= last.t.note.value.keyEpoch {
      ChainWalks(last, last.t.note.value.keyEpoch, target, links);
    }
  }

  /**
   Whatever list of links a server hands out, a traversal from the true current key that
   succeeds returns the true key, as long as nobody without a note key forged a sealed key.
   */
  lemma {:induction false} TraversalIsSound(keys: map<int, Key>, cryptoOwnerId: Id, noteId: Id, epoch: int,
      target: int, links: seq<EpochLink>)
    requires forall e :: 1 <= e <= epoch ==> e in keys
    requires 1 <= target <= epoch
    requires Unforged(keys, cryptoOwnerId, noteId, links)
    ensures var result := WalkBack(cryptoOwnerId, noteId, epoch, target, keys[epoch], links);
      result.Some? ==> result.value == keys[target]
    decreases epoch - target
  {
    if epoch > target {
      FoundIsThere(links, epoch);
      var previous := StepBack(cryptoOwnerId, noteId, epoch, keys[epoch], links);
      if previous.Some? {
        TraversalIsSound(keys, cryptoOwnerId, noteId, epoch - 1, target, links);
      }
    }
  }

  /** What opens under an epoch's key in that epoch's context was sealed by its rotation. */
  ghost predicate Unforged(keys: map<int, Key>, cryptoOwnerId: Id, noteId: Id, links: seq<EpochLink>) {
    forall i, e :: 0 <= i < |links| && e in keys && e - 1 in keys
      && OpenEnvelope(links[i].cipher, keys[e], LinkContext(cryptoOwnerId, noteId, e - 1, e)).Some?
      ==> links[i].cipher.plain == keys[e - 1]
  }

  lemma {:induction false} FoundIsThere(links: seq<EpochLink>, epoch: int)
    ensures FindLink(links, epoch).Some? ==>
      FindLink(links, epoch).value in links && FindLink(links, epoch).value.targetEpoch == epoch
  {
    if links != [] && links[0].targetEpoch != epoch {
      FoundIsThere(links[1..], epoch);
    }
  }

  /** Whether a preparation may be sent again: for the same user, from the same version and epoch to the next. */
  lemma MatchesMeans(p: Preparation, view: NoteView, revokedUserId: Id)
    ensures PreparationMatches(p, view, revokedUserId)
      <==> (p.revokedUserId == revokedUserId && p.rootVersion == view.rootVersion && p.sourceEpoch == view.keyEpoch && p.targetEpoch == p.sourceEpoch + 1)
    ensures forall owner, note, root, target ::
      PreparationMatches(PrepareLinkedEpochRotation(owner, note, view, revokedUserId, root, target), view, revokedUserId)
  {
  }

  /**
   A preparation that matches an up-to-date view, retained or new, rotates the note if and only if it is
   sent by the active owner of the live, unfenced note for a collaborator, with one share for exactly
   the collaborators that stay.
   */
  lemma MatchingRotationSucceedsIff(w: World, step: Step, view: NoteView)
    requires ChainInv(w) && step.RotateStep? && PreparationMatches(step.preparation, view, step.preparation.revokedUserId)
    requires view.rootVersion == w.t.note.value.rootVersion && view.keyEpoch == w.t.note.value.keyEpoch
    ensures Rotated(w.t, InputOf(w, step)).1.RotatedTo? <==>
      && step.actorUserId in w.t.members
      && w.t.members[step.actorUserId].role == Owner && w.t.members[step.actorUserId].status == Active
      && !w.t.note.value.isDeleted && !w.t.note.value.rotationFenced && IsCollaborator(w.t, step.preparation.revokedUserId)
      && OffersExactly(w.t, step.preparation.revokedUserId, SharesFor(w, step))
  {
    hide Rotated, OffersExactly, RotationWrites, LinkOk, HonestPreparation;
    RotationTerms(w.t, InputOf(w, step));
  }

  /**
   A retained preparation that matches an up-to-date view is accepted on its epochs, and one
   that was already used is refused without touching anything.
   */
  lemma RetriesAreSafe(w: World, step: Step, view: NoteView)
    requires ChainInv(w) && Enabled(w, step) && step.RotateStep?
    ensures w.t.note.value.keyEpoch != step.preparation.sourceEpoch ==> Next(w, step) == w
    ensures Next(w, step) != w ==> Next(Next(w, step), step) == Next(w, step)
    ensures PreparationMatches(step.preparation, view, step.preparation.revokedUserId)
      && view.rootVersion == w.t.note.value.rootVersion && view.keyEpoch == w.t.note.value.keyEpoch
      ==> RotationGate(w.t, InputOf(w, step)) != Some(RotationConflict) || w.t.note.value.isDeleted || w.t.note.value.rotationFenced
  {
    hide SharesFit, Upserted;
    var next := Next(w, step);
    RotationRefusedOrDone(w.t, InputOf(w, step));
    RotationRefusedOrDone(next.t, InputOf(w, step));
  }
}
