/**
 The rows of one note that decide who holds its key: memberships, key shares and epoch links,
 with the transactions that change them.
 */
module NoteSharing {
  import opened Basics
  import opened SectionHistory

  /** A note key, a root key or a title, as far as sealing is concerned. */
  type Secret = nat

  type Key = Secret

  /** What a ciphertext is bound to, its purpose included. */
  datatype Context =
    | OwnerContext(cryptoOwnerId: Id, noteId: Id, keyEpoch: int)
    | TitleContext(cryptoOwnerId: Id, noteId: Id, keyEpoch: int)
    | LinkContext(cryptoOwnerId: Id, noteId: Id, sourceEpoch: int, targetEpoch: int)

  /** Something sealed under a key: an ideal AEAD opens it only with that key and that context. */
  datatype Envelope = Envelope(plain: Secret, under: Key, context: Context)

  function OpenEnvelope(cipher: Envelope, key: Key, context: Context): Option<Secret> {
    if cipher.under == key && cipher.context == context then Some(cipher.plain) else None
  }

  datatype SharingKey = SharingKey(userId: Id, version: nat)

  datatype ShareContext = ShareContext(
    cryptoOwnerId: Id, noteId: Id, keyEpoch: int, recipientUserId: Id, sharingKeyVersion: nat, senderUserId: Id)

  /** A note key sealed for a sharing key pair, with the context inside; only its private half opens it. */
  datatype SealedShare = SealedShare(plain: Key, recipient: SharingKey, context: ShareContext)

  /** Opening checks the context that was sealed against the one the share row and the note give. */
  function OpenShare(cipher: SealedShare, holder: SharingKey, context: ShareContext): Option<Key> {
    if cipher.recipient == holder && cipher.context == context then Some(cipher.plain) else None
  }

  datatype EpochLink = EpochLink(sourceEpoch: int, targetEpoch: int, cipher: Envelope, formatVersion: nat)

  datatype Member = Member(role: Role, status: MemberStatus)

  datatype Share = Share(senderUserId: Id, sharingKeyVersion: nat, encryptedNoteKey: SealedShare)

  datatype ShareInput = ShareInput(recipientUserId: Id, sharingKeyVersion: nat, encryptedNoteKey: SealedShare)

  datatype NoteRow = NoteRow(
    version: nat, rootVersion: nat, keyEpoch: nat, isDeleted: bool, rotationFenced: bool, encryptedNoteKey: Envelope, titleCipher: Envelope)

  datatype Tables = Tables(
    note: Option<NoteRow>,
    members: map<Id, Member>,
    shares: map<Id, Share>,
    links: map<int, EpochLink>,
    sharingKeys: set<SharingKey>)

  datatype InviteOutcome = NoteNotFound | SharingKeyNotFound | Self | OwnerAlready | InvitedMember

  datatype RotationInput = RotationInput(
    actorUserId: Id, revokedUserId: Id, rootVersion: nat, sourceEpoch: int, targetEpoch: int, shares: seq<ShareInput>,
    encryptedNoteKey: Envelope, titleCipher: Envelope, previousKey: Envelope, linkFormatVersion: nat)

  /** A protected update: the title, and for the owner's root section the sealed key; whether the folder is acceptable is a parameter. */
  datatype UpdateInput = UpdateInput(
    actorUserId: Id, rootVersion: nat, keyEpoch: int, titleCipher: Option<Envelope>, encryptedNoteKey: Option<Envelope>,
    sameRootSection: bool, folderAccepted: bool)

  datatype UpdateOutcome = UpdateNotFound | UpdateConflict | InvalidFolder | Saved(rootVersion: nat)

  datatype RotationOutcome = RotationNotFound | RotationConflict | InvalidSet | RotationFailed | RotatedTo(keyEpoch: int)

  // ----- specifications -----

  predicate Collaborates(member: Member) { member.status.Active? && !member.role.Owner? }

  function Collaborators(members: map<Id, Member>): set<Id> {
    set u | u in members && Collaborates(members[u])
  }

  function MemberInvited(t: Tables, actorUserId: Id, recipientUserId: Id, role: Role, sharingKeyVersion: nat,
      encryptedNoteKey: SealedShare)
    : (Tables, InviteOutcome)
  {
    if t.note.None? then (t, NoteNotFound)
    else if SharingKey(recipientUserId, sharingKeyVersion) !in t.sharingKeys then (t, SharingKeyNotFound)
    else if recipientUserId == actorUserId then (t, Self)
    else if recipientUserId in t.members && t.members[recipientUserId].role.Owner? then (t, OwnerAlready)
    else
      (t.(members := t.members[recipientUserId := Member(role, Active)],
          shares := t.shares[recipientUserId := Share(actorUserId, sharingKeyVersion, encryptedNoteKey)]),
       InvitedMember)
  }

  predicate RoleChangeable(t: Tables, userId: Id) {
    t.note.Some? && userId in t.members && Collaborates(t.members[userId])
  }

  function RoleUpdated(t: Tables, userId: Id, role: Role): Tables {
    if RoleChangeable(t, userId) then t.(members := t.members[userId := t.members[userId].(role := role)]) else t
  }

  predicate Revocable(t: Tables, userId: Id) {
    t.note.Some? && userId in t.members && !t.members[userId].role.Owner? && !t.members[userId].status.Revoked?
  }

  function RevokedFrom(t: Tables, userId: Id): Tables {
    if Revocable(t, userId)
    then t.(members := t.members[userId := t.members[userId].(status := Revoked)], shares := t.shares - {userId}) else t
  }

  predicate MayUpdate(t: Tables, input: UpdateInput) {
    && t.note.Some? && input.actorUserId in t.members
    && t.members[input.actorUserId].status.Active? && !t.members[input.actorUserId].role.Viewer?
  }

  predicate UpdateConflicts(note: NoteRow, role: Role, input: UpdateInput) {
    || note.isDeleted || note.rotationFenced || note.rootVersion != input.rootVersion || note.keyEpoch != input.keyEpoch
    || (input.encryptedNoteKey.Some? && (!role.Owner? || !input.sameRootSection))
  }

  function NoteUpdated(t: Tables, input: UpdateInput): (Tables, UpdateOutcome) {
    if !MayUpdate(t, input) then (t, UpdateNotFound)
    else
      var note := t.note.value;
      if UpdateConflicts(note, t.members[input.actorUserId].role, input) then (t, UpdateConflict)
      else if !input.folderAccepted then (t, InvalidFolder)
      else
        (t.(note := Some(note.(version := note.version + 1, rootVersion := note.rootVersion + 1,
                               titleCipher := if input.titleCipher.Some? then input.titleCipher.value else note.titleCipher,
                               encryptedNoteKey := if input.encryptedNoteKey.Some? then input.encryptedNoteKey.value else note.encryptedNoteKey))),
         Saved(note.rootVersion + 1))
  }

  function Recipients(shares: seq<ShareInput>): (ids: seq<Id>)
    ensures |ids| == |shares| && forall i :: 0 <= i < |ids| ==> ids[i] == shares[i].recipientUserId
  {
    seq(|shares|, i requires 0 <= i < |shares| => shares[i].recipientUserId)
  }

  /** Equal lengths, and everything on the left is on the right. */
  predicate SameMembers(left: seq<Id>, right: seq<Id>) {
    |left| == |right| && forall i :: 0 <= i < |left| ==> left[i] in right
  }

  ghost predicate Distinct(ids: seq<Id>) { forall i, j :: 0 <= i < j < |ids| ==> ids[i] != ids[j] }

  /** A duplicate-free listing of a set, in whatever order the query returned it. */
  ghost predicate ListingOf(ids: seq<Id>, s: set<Id>) {
    Distinct(ids) && forall u :: u in ids <==> u in s
  }

  function Upserted(shares: map<Id, Share>, actorUserId: Id, input: seq<ShareInput>): map<Id, Share> {
    if input == [] then shares
    else
      var last := input[|input| - 1];
      Upserted(shares, actorUserId, input[..|input| - 1])[last.recipientUserId :=
        Share(actorUserId, last.sharingKeyVersion, last.encryptedNoteKey)]
  }

  /** Refusals decided on the note and the actor. */
  function RotationGate(t: Tables, input: RotationInput): Option<RotationOutcome> {
    if t.note.None? || input.actorUserId !in t.members || !t.members[input.actorUserId].role.Owner?
       || !t.members[input.actorUserId].status.Active? then Some(RotationNotFound)
    else if t.note.value.isDeleted || t.note.value.rotationFenced || t.note.value.rootVersion != input.rootVersion
            || t.note.value.keyEpoch != input.sourceEpoch || input.targetEpoch != input.sourceEpoch + 1 then Some(RotationConflict)
    else None
  }

  predicate AllTrusted(sharingKeys: set<SharingKey>, shares: seq<ShareInput>) {
    forall i :: 0 <= i < |shares| ==> SharingKey(shares[i].recipientUserId, shares[i].sharingKeyVersion) in sharingKeys
  }

  /** The offered shares are for exactly the collaborators that stay, once each. */
  ghost predicate SharesFit(members: map<Id, Member>, revokedUserId: Id, shares: seq<ShareInput>) {
    ListingOf(Recipients(shares), Collaborators(members) - {revokedUserId})
  }

  function Rotation(t: Tables, input: RotationInput): Tables
    requires t.note.Some? && input.revokedUserId in t.members
  {
    var note := t.note.value;
    t.(note := Some(note.(version := note.version + 1, rootVersion := note.rootVersion + 1, keyEpoch := note.keyEpoch + 1,
                          encryptedNoteKey := input.encryptedNoteKey, titleCipher := input.titleCipher)),
       members := t.members[input.revokedUserId := t.members[input.revokedUserId].(status := Revoked)],
       shares := Upserted(t.shares - {input.revokedUserId}, input.actorUserId, input.shares),
       links := t.links[input.targetEpoch := EpochLink(input.sourceEpoch, input.targetEpoch, input.previousKey, input.linkFormatVersion)])
  }

  ghost function Rotated(t: Tables, input: RotationInput): (Tables, RotationOutcome) {
    var gate := RotationGate(t, input);
    if gate.Some? then (t, gate.value)
    else if input.revokedUserId !in Collaborators(t.members) then (t, RotationNotFound)
    else if !SharesFit(t.members, input.revokedUserId, input.shares) || !AllTrusted(t.sharingKeys, input.shares) then (t, InvalidSet)
    else if input.targetEpoch in t.links then (t, RotationFailed)
    else (Rotation(t, input), RotatedTo(input.targetEpoch))
  }

  // ----- sameMembers decides permutations -----

  lemma {:induction false} DistinctCounts(ids: seq<Id>)
    requires Distinct(ids)
    ensures forall u :: multiset(ids)[u] == if u in ids then 1 else 0
  {
    if ids != [] {
      var init := ids[..|ids| - 1];
      assert ids == init + [ids[|ids| - 1]];
      DistinctCounts(init);
    }
  }

  lemma {:induction false} SubMultiset(left: seq<Id>, right: seq<Id>)
    requires Distinct(left) && forall i :: 0 <= i < |left| ==> left[i] in right
    ensures multiset(left) <= multiset(right)
  {
    DistinctCounts(left);
  }

  lemma SmallerMultisets(a: multiset<Id>, b: multiset<Id>)
    requires a <= b && |a| == |b|
    ensures a == b
  {
    assert b == a + (b - a);
    assert |b - a| == 0;
  }

  /**
   The comparison is one-sided, yet with a duplicate-free left side it holds exactly when the
   right side is a permutation of it.
   */
  lemma SameMembersIffPermutation(left: seq<Id>, right: seq<Id>)
    requires Distinct(left)
    ensures SameMembers(left, right) <==> multiset(left) == multiset(right)
  {
    assert |multiset(left)| == |left| && |multiset(right)| == |right|;
    if SameMembers(left, right) {
      SubMultiset(left, right);
      SmallerMultisets(multiset(left), multiset(right));
    } else if multiset(left) == multiset(right) {
      forall i | 0 <= i < |left| ensures left[i] in right {
        assert left[i] in multiset(left);
      }
    }
  }

  lemma PermutationLists(left: seq<Id>, right: seq<Id>, s: set<Id>)
    requires ListingOf(left, s) && multiset(left) == multiset(right)
    ensures ListingOf(right, s)
  {
    DistinctCounts(left);
    forall u ensures u in right <==> u in s {
      assert u in right <==> u in multiset(right);
      assert u in left <==> u in multiset(left);
    }
    AtMostOnce(right);
  }

  lemma AtMostOnce(ids: seq<Id>)
    requires forall u :: multiset(ids)[u] <= 1
    ensures Distinct(ids)
  {
    forall i, j | 0 <= i < j < |ids| ensures ids[i] != ids[j] {
      if ids[i] == ids[j] {
        TwiceCountsTwice(ids, i, j);
      }
    }
  }

  lemma TwiceCountsTwice(ids: seq<Id>, i: nat, j: nat)
    requires i < j < |ids| && ids[i] == ids[j]
    ensures multiset(ids)[ids[i]] >= 2
  {
    assert ids == ids[..j] + ids[j..];
    assert ids[..j][i] == ids[i] && ids[j..][0] == ids[j];
    assert ids[i] in ids[..j] && ids[i] in ids[j..];
  }

  lemma ListingsArePermutations(left: seq<Id>, right: seq<Id>, s: set<Id>)
    requires ListingOf(left, s) && ListingOf(right, s)
    ensures multiset(left) == multiset(right)
  {
    DistinctCounts(left);
    DistinctCounts(right);
  }

  /** What the comparison establishes about the offered shares. */
  lemma ComparisonMeansFit(remaining: seq<Id>, members: map<Id, Member>, revokedUserId: Id, shares: seq<ShareInput>)
    requires ListingOf(remaining, Collaborators(members) - {revokedUserId})
    ensures SameMembers(remaining, Recipients(shares)) <==> SharesFit(members, revokedUserId, shares)
  {
    hide SameMembers, Distinct, Collaborators;
    SameMembersIffPermutation(remaining, Recipients(shares));
    if SameMembers(remaining, Recipients(shares)) {
      PermutationLists(remaining, Recipients(shares), Collaborators(members) - {revokedUserId});
    } else if SharesFit(members, revokedUserId, shares) {
      ListingsArePermutations(remaining, Recipients(shares), Collaborators(members) - {revokedUserId});
    }
  }

  // ----- what each transaction may answer and leave, said on the rows -----

  /** Only this user's member and share rows may differ. */
  predicate OnlyUser(before: Tables, after: Tables, userId: Id) {
    && after.note == before.note && after.links == before.links && after.sharingKeys == before.sharingKeys
    && after.members - {userId} == before.members - {userId} && after.shares - {userId} == before.shares - {userId}
  }

  predicate InviteAnswer(before: Tables, actorUserId: Id, recipientUserId: Id, role: Role, sharingKeyVersion: nat,
      encryptedNoteKey: SealedShare, after: Tables, outcome: InviteOutcome)
  {
    var known := before.note.Some? && SharingKey(recipientUserId, sharingKeyVersion) in before.sharingKeys;
    var owns := recipientUserId in before.members && before.members[recipientUserId].role == Owner;
    && (outcome == NoteNotFound <==> before.note == None)
    && (outcome == Self <==> known && recipientUserId == actorUserId)
    && (outcome == OwnerAlready <==> known && recipientUserId != actorUserId && owns)
    && (outcome == InvitedMember <==> known && recipientUserId != actorUserId && !owns)
    && (outcome != InvitedMember ==> after == before)
    && (outcome == InvitedMember ==>
          && OnlyUser(before, after, recipientUserId)
          && recipientUserId in after.members && after.members[recipientUserId].role == role
          && after.members[recipientUserId].status == Active
          && recipientUserId in after.shares && after.shares[recipientUserId].senderUserId == actorUserId
          && after.shares[recipientUserId].sharingKeyVersion == sharingKeyVersion
          && after.shares[recipientUserId].encryptedNoteKey == encryptedNoteKey)
  }

  lemma InviteTerms(t: Tables, actorUserId: Id, recipientUserId: Id, role: Role, sharingKeyVersion: nat, encryptedNoteKey: SealedShare)
    ensures var (next, outcome) := MemberInvited(t, actorUserId, recipientUserId, role, sharingKeyVersion, encryptedNoteKey);
      InviteAnswer(t, actorUserId, recipientUserId, role, sharingKeyVersion, encryptedNoteKey, next, outcome)
  {
  }

  /** The user is an active member and not the owner. */
  predicate IsCollaborator(t: Tables, userId: Id) {
    userId in t.members && t.members[userId].status == Active && t.members[userId].role != Owner
  }

  predicate RoleAnswer(before: Tables, userId: Id, role: Role, after: Tables, updated: bool) {
    && (updated <==> before.note.Some? && IsCollaborator(before, userId))
    && (!updated ==> after == before)
    && (updated ==>
          && OnlyUser(before, after, userId) && after.shares == before.shares
          && userId in after.members && after.members[userId].role == role && after.members[userId].status == Active)
  }

  lemma RoleTerms(t: Tables, userId: Id, role: Role)
    ensures RoleAnswer(t, userId, role, RoleUpdated(t, userId, role), RoleChangeable(t, userId))
  {
  }

  predicate RevokeAnswer(before: Tables, userId: Id, after: Tables, revoked: bool) {
    && (revoked <==> before.note.Some? && userId in before.members && before.members[userId].role != Owner && before.members[userId].status != Revoked)
    && (!revoked ==> after == before)
    && (revoked ==>
          && OnlyUser(before, after, userId) && userId !in after.shares
          && userId in after.members && after.members[userId].status == Revoked
          && after.members[userId].role == before.members[userId].role)
  }

  lemma RevokeTerms(t: Tables, userId: Id)
    ensures RevokeAnswer(t, userId, RevokedFrom(t, userId), Revocable(t, userId))
  {
  }

  /** An active owner or editor of an unfenced live note, at the version and epoch the client saw. */
  predicate MaySave(t: Tables, input: UpdateInput) {
    && t.note.Some? && input.actorUserId in t.members && t.members[input.actorUserId].status == Active
    && t.members[input.actorUserId].role in {Owner, Editor}
    && !t.note.value.isDeleted && !t.note.value.rotationFenced
    && t.note.value.rootVersion == input.rootVersion && t.note.value.keyEpoch == input.keyEpoch
    && (input.encryptedNoteKey.Some? ==> t.members[input.actorUserId].role == Owner && input.sameRootSection)
  }

  predicate UpdateAnswer(before: Tables, input: UpdateInput, after: Tables, outcome: UpdateOutcome) {
    && (outcome.Saved? <==> MaySave(before, input) && input.folderAccepted)
    && (outcome == InvalidFolder <==> MaySave(before, input) && !input.folderAccepted)
    && (!outcome.Saved? ==> after == before)
    && (outcome.Saved? ==>
          && after.note.Some? && after == before.(note := after.note)
          && var was, now := before.note.value, after.note.value;
          && outcome.rootVersion == now.rootVersion == was.rootVersion + 1 && now.version == was.version + 1
          && now.keyEpoch == was.keyEpoch && !now.isDeleted && !now.rotationFenced
          && (match input.titleCipher case Some(title) => now.titleCipher == title case None => now.titleCipher == was.titleCipher)
          && (match input.encryptedNoteKey case Some(key) => now.encryptedNoteKey == key case None => now.encryptedNoteKey == was.encryptedNoteKey))
  }

  lemma UpdateTerms(t: Tables, input: UpdateInput)
    ensures UpdateAnswer(t, input, NoteUpdated(t, input).0, NoteUpdated(t, input).1)
  {
  }

  /** The active owner of a live, unfenced note rotates from its present version and epoch to the next. */
  predicate MayRotate(t: Tables, input: RotationInput) {
    && t.note.Some? && input.actorUserId in t.members
    && t.members[input.actorUserId].role == Owner && t.members[input.actorUserId].status == Active
    && !t.note.value.isDeleted && !t.note.value.rotationFenced
    && t.note.value.rootVersion == input.rootVersion && t.note.value.keyEpoch == input.sourceEpoch
    && input.targetEpoch == input.sourceEpoch + 1
  }

  /** Each collaborator but the revoked one is offered a share once, under a sharing key it published, and nobody else is. */
  ghost predicate OffersExactly(t: Tables, revokedUserId: Id, offered: seq<ShareInput>) {
    && (forall i, j :: 0 <= i < j < |offered| ==> offered[i].recipientUserId != offered[j].recipientUserId)
    && (forall i :: 0 <= i < |offered| ==>
          && IsCollaborator(t, offered[i].recipientUserId) && offered[i].recipientUserId != revokedUserId
          && SharingKey(offered[i].recipientUserId, offered[i].sharingKeyVersion) in t.sharingKeys)
    && (forall u :: IsCollaborator(t, u) && u != revokedUserId ==> exists i :: 0 <= i < |offered| && offered[i].recipientUserId == u)
  }

  /** The note row as the input has it, one epoch and version on. */
  predicate NoteRotated(before: NoteRow, after: NoteRow, input: RotationInput) {
    && after.encryptedNoteKey == input.encryptedNoteKey && after.titleCipher == input.titleCipher
    && after.keyEpoch == input.targetEpoch && after.rootVersion == before.rootVersion + 1 && after.version == before.version + 1
    && !after.rotationFenced && after.isDeleted == before.isDeleted
  }

  /** Note, revoked member, every offered share and the link between the epochs, and nothing else. */
  ghost predicate RotationWrites(before: Tables, after: Tables, input: RotationInput) {
    && before.note.Some? && after.note.Some? && NoteRotated(before.note.value, after.note.value, input)
    && input.revokedUserId in before.members && after.members.Keys == before.members.Keys
    && after.members[input.revokedUserId].status == Revoked
    && after.members[input.revokedUserId].role == before.members[input.revokedUserId].role
    && (forall u :: u in before.members && u != input.revokedUserId ==> after.members[u] == before.members[u])
    && input.revokedUserId !in after.shares
    && (forall i :: 0 <= i < |input.shares| ==> IsOffered(after.shares, input.actorUserId, input.shares[i]))
    && (forall u :: u in after.shares ==>
          || (u in before.shares && after.shares[u] == before.shares[u])
          || exists i :: 0 <= i < |input.shares| && input.shares[i].recipientUserId == u)
    && (forall u :: u in before.shares && u != input.revokedUserId ==> u in after.shares)
    && input.targetEpoch !in before.links && input.targetEpoch in after.links
    && after.links - {input.targetEpoch} == before.links
    && after.links[input.targetEpoch].sourceEpoch == input.sourceEpoch
    && after.links[input.targetEpoch].targetEpoch == input.targetEpoch
    && after.links[input.targetEpoch].cipher == input.previousKey
    && after.links[input.targetEpoch].formatVersion == input.linkFormatVersion
    && after.sharingKeys == before.sharingKeys
  }

  predicate IsOffered(shares: map<Id, Share>, actorUserId: Id, offer: ShareInput) {
    && offer.recipientUserId in shares
    && shares[offer.recipientUserId].senderUserId == actorUserId
    && shares[offer.recipientUserId].sharingKeyVersion == offer.sharingKeyVersion
    && shares[offer.recipientUserId].encryptedNoteKey == offer.encryptedNoteKey
  }

  ghost predicate RotationAnswer(before: Tables, input: RotationInput, after: Tables, outcome: RotationOutcome) {
    var may := MayRotate(before, input);
    var gone := IsCollaborator(before, input.revokedUserId);
    var fits := OffersExactly(before, input.revokedUserId, input.shares);
    && (outcome.RotatedTo? <==> may && gone && fits && input.targetEpoch !in before.links)
    && (outcome == InvalidSet <==> may && gone && !fits)
    && (outcome == RotationFailed <==> may && gone && fits && input.targetEpoch in before.links)
    && (!outcome.RotatedTo? ==> after == before)
    && (outcome.RotatedTo? ==> outcome.keyEpoch == input.targetEpoch && RotationWrites(before, after, input))
  }

  lemma {:induction false} UpsertedRows(shares: map<Id, Share>, actorUserId: Id, input: seq<ShareInput>)
    requires forall i, j :: 0 <= i < j < |input| ==> input[i].recipientUserId != input[j].recipientUserId
    ensures forall i :: 0 <= i < |input| ==> IsOffered(Upserted(shares, actorUserId, input), actorUserId, input[i])
    ensures forall u :: u in shares ==> u in Upserted(shares, actorUserId, input)
    ensures forall u :: u in Upserted(shares, actorUserId, input) ==>
      || (u in shares && Upserted(shares, actorUserId, input)[u] == shares[u])
      || exists i :: 0 <= i < |input| && input[i].recipientUserId == u
  {
    if input != [] {
      var init, last := input[..|input| - 1], input[|input| - 1];
      UpsertedRows(shares, actorUserId, init);
      forall i | 0 <= i < |input| ensures IsOffered(Upserted(shares, actorUserId, input), actorUserId, input[i]) {
        if i < |init| {
          assert IsOffered(Upserted(shares, actorUserId, init), actorUserId, init[i]);
        }
      }
      forall u | u in Upserted(shares, actorUserId, input)
        ensures (u in shares && Upserted(shares, actorUserId, input)[u] == shares[u])
          || exists i :: 0 <= i < |input| && input[i].recipientUserId == u
      {
        if u == last.recipientUserId {
          assert input[|input| - 1].recipientUserId == u;
        } else if u !in shares || Upserted(shares, actorUserId, init)[u] != shares[u] {
          var i :| 0 <= i < |init| && init[i].recipientUserId == u;
          assert input[i].recipientUserId == u;
        }
      }
    }
  }

  /** The offered shares fit and are trusted exactly when they offer one to each who stays. */
  lemma FitMeansOffersExactly(t: Tables, revokedUserId: Id, offered: seq<ShareInput>)
    ensures SharesFit(t.members, revokedUserId, offered) && AllTrusted(t.sharingKeys, offered) <==> OffersExactly(t, revokedUserId, offered)
  {
    var ids, s := Recipients(offered), Collaborators(t.members) - {revokedUserId};
    assert forall u :: u in s <==> IsCollaborator(t, u) && u != revokedUserId;
    if SharesFit(t.members, revokedUserId, offered) && AllTrusted(t.sharingKeys, offered) {
      forall i | 0 <= i < |offered| ensures IsCollaborator(t, offered[i].recipientUserId) && offered[i].recipientUserId != revokedUserId {
        assert ids[i] in s;
      }
      forall u | IsCollaborator(t, u) && u != revokedUserId ensures exists i :: 0 <= i < |offered| && offered[i].recipientUserId == u {
        assert u in ids;
        var i :| 0 <= i < |ids| && ids[i] == u;
        assert offered[i].recipientUserId == u;
      }
      forall i, j | 0 <= i < j < |offered| ensures offered[i].recipientUserId != offered[j].recipientUserId {
        assert ids[i] != ids[j];
      }
    } else if OffersExactly(t, revokedUserId, offered) {
      forall u | u in s ensures u in ids {
        var i :| 0 <= i < |offered| && offered[i].recipientUserId == u;
        assert ids[i] == u;
      }
      assert ListingOf(ids, s);
    }
  }

  lemma RotationTerms(t: Tables, input: RotationInput)
    ensures RotationAnswer(t, input, Rotated(t, input).0, Rotated(t, input).1)
  {
    hide SharesFit, AllTrusted, OffersExactly, RotationWrites, Upserted, Rotation;
    FitMeansOffersExactly(t, input.revokedUserId, input.shares);
    if t.note.Some? && input.revokedUserId in t.members && OffersExactly(t, input.revokedUserId, input.shares) && MayRotate(t, input)
       && input.targetEpoch !in t.links {
      RotationWritten(t, input);
    }
  }

  lemma RotationWritten(t: Tables, input: RotationInput)
    requires t.note.Some? && input.revokedUserId in t.members && OffersExactly(t, input.revokedUserId, input.shares)
    requires MayRotate(t, input) && input.targetEpoch !in t.links
    ensures RotationWrites(t, Rotation(t, input), input)
  {
    hide Upserted, IsOffered, IsCollaborator;
    UpsertedRows(t.shares - {input.revokedUserId}, input.actorUserId, input.shares);
    assert Rotation(t, input).links - {input.targetEpoch} == t.links;
  }

  // ----- the repositories -----

  class PostgresNoteSharing {
    var note: Option<NoteRow>
    var members: map<Id, Member>
    var shares: map<Id, Share>
    var links: map<int, EpochLink>
    var sharingKeys: set<SharingKey>

    function Rows(): Tables
      reads this
    {
      Tables(note, members, shares, links, sharingKeys)
    }

    /** A note as it is created: its owner, no shares, no links, epoch one. */
    constructor (ownerUserId: Id, note: NoteRow, sharingKeys: set<SharingKey>)
      ensures Rows() == Tables(Some(note), map[ownerUserId := Member(Owner, Active)], map[], map[], sharingKeys)
    {
      this.note, members, shares, links := Some(note), map[ownerUserId := Member(Owner, Active)], map[], map[];
      this.sharingKeys := sharingKeys;
    }

    method Invite(actorUserId: Id, recipientUserId: Id, role: Role, sharingKeyVersion: nat, encryptedNoteKey: SealedShare)
      returns (outcome: InviteOutcome)
      modifies this`members, this`shares
      ensures (Rows(), outcome) == MemberInvited(old(Rows()), actorUserId, recipientUserId, role, sharingKeyVersion, encryptedNoteKey)
      ensures InviteAnswer(old(Rows()), actorUserId, recipientUserId, role, sharingKeyVersion, encryptedNoteKey, Rows(), outcome)
    {
      InviteTerms(Rows(), actorUserId, recipientUserId, role, sharingKeyVersion, encryptedNoteKey);
      if note.None? {
        return NoteNotFound;
      }
      if SharingKey(recipientUserId, sharingKeyVersion) !in sharingKeys {
        return SharingKeyNotFound;
      }
      if recipientUserId == actorUserId {
        return Self;
      }
      if recipientUserId in members && members[recipientUserId].role.Owner? {
        return OwnerAlready;
      }
      members := members[recipientUserId := Member(role, Active)];
      shares := shares[recipientUserId := Share(actorUserId, sharingKeyVersion, encryptedNoteKey)];
      return InvitedMember;
    }

    method UpdateRole(userId: Id, role: Role) returns (updated: bool)
      modifies this`members
      ensures Rows() == RoleUpdated(old(Rows()), userId, role)
      ensures updated <==> RoleChangeable(old(Rows()), userId)
      ensures RoleAnswer(old(Rows()), userId, role, Rows(), updated)
    {
      RoleTerms(Rows(), userId, role);
      if note.None? || userId !in members || members[userId].role.Owner? || !members[userId].status.Active? {
        return false;
      }
      members := members[userId := members[userId].(role := role)];
      return true;
    }

    method Revoke(userId: Id) returns (revoked: bool)
      modifies this`members, this`shares
      ensures Rows() == RevokedFrom(old(Rows()), userId)
      ensures revoked <==> Revocable(old(Rows()), userId)
      ensures RevokeAnswer(old(Rows()), userId, Rows(), revoked)
    {
      RevokeTerms(Rows(), userId);
      if note.None? || userId !in members || members[userId].role.Owner? || members[userId].status.Revoked? {
        return false;
      }
      members := members[userId := members[userId].(status := Revoked)];
      shares := shares - {userId};
      return true;
    }

    /** updateProtected: a new title, or for the owner a resealed key, at the version and epoch the client saw. */
    method UpdateProtected(input: UpdateInput) returns (outcome: UpdateOutcome)
      modifies this`note
      ensures (Rows(), outcome) == NoteUpdated(old(Rows()), input)
      ensures UpdateAnswer(old(Rows()), input, Rows(), outcome)
    {
      UpdateTerms(Rows(), input);
      if note.None? || input.actorUserId !in members || !members[input.actorUserId].status.Active?
         || (!members[input.actorUserId].role.Owner? && !members[input.actorUserId].role.Editor?) {
        return UpdateNotFound;
      }
      var current := note.value;
      if current.isDeleted || current.rotationFenced || current.rootVersion != input.rootVersion || current.keyEpoch != input.keyEpoch {
        return UpdateConflict;
      }
      if input.encryptedNoteKey.Some? && (!members[input.actorUserId].role.Owner? || !input.sameRootSection) {
        return UpdateConflict;
      }
      if !input.folderAccepted {
        return InvalidFolder;
      }
      if input.titleCipher.Some? {
        current := current.(titleCipher := input.titleCipher.value);
      }
      if input.encryptedNoteKey.Some? {
        current := current.(encryptedNoteKey := input.encryptedNoteKey.value);
      }
      note := Some(current.(rootVersion := current.rootVersion + 1, version := current.version + 1));
      return Saved(current.rootVersion + 1);
    }

    /** The collaborators that stay, as some query order lists them. */
    method ListRemaining(revokedUserId: Id) returns (remaining: seq<Id>)
      ensures ListingOf(remaining, Collaborators(members) - {revokedUserId})
    {
      remaining := [];
      var rest := set u | u in members && Collaborates(members[u]) && u != revokedUserId;
      var all := rest;
      while rest != {}
        invariant rest <= all
        invariant Distinct(remaining)
        invariant forall u :: u in remaining <==> u in all - rest
        decreases |rest|
      {
        var u :| u in rest;
        assert u !in remaining;
        remaining := remaining + [u];
        rest := rest - {u};
      }
    }

    method UpsertShares(actorUserId: Id, input: seq<ShareInput>)
      modifies this`shares
      ensures shares == Upserted(old(shares), actorUserId, input)
    {
      for i := 0 to |input|
        invariant shares == Upserted(old(shares), actorUserId, input[..i])
      {
        assert input[..i + 1][..i] == input[..i];
        shares := shares[input[i].recipientUserId := Share(actorUserId, input[i].sharingKeyVersion, input[i].encryptedNoteKey)];
      }
      assert input[..|input|] == input;
    }

    /** Fence, revoke, reseal for everyone who stays, link the epochs, advance, unfence. */
    method RotateLinked(input: RotationInput) returns (outcome: RotationOutcome)
      modifies this
      ensures (Rows(), outcome) == Rotated(old(Rows()), input)
      ensures RotationAnswer(old(Rows()), input, Rows(), outcome)
    {
      hide SharesFit, SameMembers, ListingOf, Upserted, RotationAnswer;
      RotationTerms(Rows(), input);
      var gate := RotationGate(Rows(), input);
      if gate.Some? {
        return gate.value;
      }
      if input.revokedUserId !in members || !Collaborates(members[input.revokedUserId]) {
        return RotationNotFound;
      }
      var remaining := ListRemaining(input.revokedUserId);
      ComparisonMeansFit(remaining, members, input.revokedUserId, input.shares);
      if !SameMembers(remaining, Recipients(input.shares)) {
        return InvalidSet;
      }
      if !AllTrusted(sharingKeys, input.shares) {
        return InvalidSet;
      }
      if input.targetEpoch in links {
        return RotationFailed;
      }
      note := Some(note.value.(rotationFenced := true));
      members := members[input.revokedUserId := members[input.revokedUserId].(status := Revoked)];
      shares := shares - {input.revokedUserId};
      UpsertShares(input.actorUserId, input.shares);
      links := links[input.targetEpoch := EpochLink(input.sourceEpoch, input.targetEpoch, input.previousKey, input.linkFormatVersion)];
      note := Some(note.value.(encryptedNoteKey := input.encryptedNoteKey, titleCipher := input.titleCipher,
                               keyEpoch := input.targetEpoch, rootVersion := note.value.rootVersion + 1,
                               version := note.value.version + 1, rotationFenced := false));
      return RotatedTo(input.targetEpoch);
    }
  }
}
