/**
 The collaboration event log: what a user may still see, acknowledging, and pruning what
 nobody needs any more.
 */
module EventReplay {
  import opened Basics
  import Totals

  const MAX_SAFE_INTEGER: nat := 9007199254740991

  datatype EventType = MembershipRevoked | NotePermanentlyDeleted | OtherEvent

  datatype Event = Event(
    noteId: Option<Id>, actorUserId: Id, eventType: EventType, membershipUserId: Option<Id>, visibleUserIds: set<Id>)

  datatype NoteUser = NoteUser(noteId: Id, userId: Id)

  /** Events by cursor, the cursor each user acknowledged, and tombstone acknowledgements. */
  datatype Log = Log(
    events: map<nat, Event>,
    cursors: map<Id, nat>,
    acknowledgements: map<NoteUser, nat>,
    active: set<NoteUser>,
    users: set<Id>)

  function CursorOf(cursors: map<Id, nat>, userId: Id): nat { if userId in cursors then cursors[userId] else 0 }

  /** The event that tells this user a note is gone for them. */
  predicate Tombstone(e: Event, userId: Id) {
    || (e.eventType.MembershipRevoked? && e.membershipUserId == Some(userId))
    || (e.eventType.NotePermanentlyDeleted? && userId in e.visibleUserIds)
  }

  predicate ByMembership(log: Log, e: Event, userId: Id) { e.noteId.Some? && NoteUser(e.noteId.value, userId) in log.active }

  predicate ByActor(e: Event, userId: Id) { e.noteId.None? && e.actorUserId == userId }

  predicate Unacknowledged(log: Log, cursor: nat, e: Event, userId: Id) {
    || e.noteId.None?
    || NoteUser(e.noteId.value, userId) !in log.acknowledgements
    || log.acknowledgements[NoteUser(e.noteId.value, userId)] < cursor
  }

  predicate Visible(log: Log, userId: Id, after: nat, cursor: nat) {
    && cursor in log.events && cursor > after
    && var e := log.events[cursor];
       ByMembership(log, e, userId) || ByActor(e, userId) || (Tombstone(e, userId) && Unacknowledged(log, cursor, e, userId))
  }

  function VisibleCursors(log: Log, userId: Id, after: nat): set<nat> {
    set c | c in log.events && Visible(log, userId, after, c)
  }

  lemma {:induction false} LeastBelow(s: set<nat>, bound: nat)
    requires bound in s
    ensures exists k :: k in s && forall other :: other in s ==> k <= other
    decreases bound
  {
    if smaller: nat :| smaller in s && smaller < bound {
      LeastBelow(s, smaller);
    } else {
      assert forall other :: other in s ==> bound <= other;
    }
  }

  lemma LeastExists(s: set<nat>)
    requires s != {}
    ensures exists k :: k in s && forall other :: other in s ==> k <= other
  {
    var k :| k in s;
    LeastBelow(s, k);
  }

  ghost function Least(s: set<nat>): (k: nat)
    requires s != {}
    ensures k in s && forall other :: other in s ==> k <= other
  {
    LeastExists(s);
    var k :| k in s && forall other :: other in s ==> k <= other;
    k
  }

  /** ORDER BY cursor LIMIT n: the least members of a set, in order. */
  ghost function FirstOf(s: set<nat>, limit: nat): seq<nat> {
    if s == {} || limit == 0 then [] else [Least(s)] + FirstOf(s - {Least(s)}, limit - 1)
  }

  ghost predicate Ascending(list: seq<nat>) { forall i, j :: 0 <= i < j < |list| ==> list[i] < list[j] }

  lemma PrependLeast(k: nat, rest: seq<nat>)
    requires Ascending(rest) && forall c :: c in rest ==> k < c
    ensures Ascending([k] + rest)
  {
    var list := [k] + rest;
    forall i, j | 0 <= i < j < |list| ensures list[i] < list[j] {
      assert list[j] == rest[j - 1] && rest[j - 1] in rest;
      assert i > 0 ==> list[i] == rest[i - 1];
    }
  }

  /** Ascending, within the limit, only members, and whatever is missing comes after a full list. */
  lemma {:induction false} FirstOfIsAPage(s: set<nat>, limit: nat)
    ensures var list := FirstOf(s, limit);
      && |list| <= limit && Ascending(list)
      && (forall c :: c in list ==> c in s)
      && (forall c, d :: c in s && c !in list && d in list ==> d < c)
      && (|list| < limit ==> forall c :: c in s ==> c in list)
    decreases |s|
  {
    hide Ascending;
    if s != {} && limit > 0 {
      var k := Least(s);
      FirstOfIsAPage(s - {k}, limit - 1);
      var rest := FirstOf(s - {k}, limit - 1);
      PrependLeast(k, rest);
      forall c, d | c in s && c !in [k] + rest && d in [k] + rest ensures d < c {
        assert c != k && c !in rest && (d == k || d in rest);
      }
    } else {
      NothingIsAscending();
    }
  }

  lemma NothingIsAscending()
    ensures Ascending([])
  {
  }

  /** What listVisible answers. */
  ghost function Listing(log: Log, userId: Id, after: nat, limit: nat): seq<nat> {
    FirstOf(VisibleCursors(log, userId, after), limit)
  }

  // ----- acknowledging -----

  predicate TombstoneAt(events: map<nat, Event>, c: nat, noteId: Id, userId: Id) {
    c in events && events[c].noteId == Some(noteId) && Tombstone(events[c], userId)
  }

  /** The greatest tombstone cursor for the user and note up to a bound: the grouped MAX. */
  function LastTombstone(events: map<nat, Event>, noteId: Id, userId: Id, bound: nat): (last: Option<nat>)
    ensures last.None? ==> forall c :: 0 <= c <= bound ==> !TombstoneAt(events, c, noteId, userId)
    ensures last.Some? ==> last.value <= bound && TombstoneAt(events, last.value, noteId, userId)
    ensures last.Some? ==> forall c :: last.value < c <= bound ==> !TombstoneAt(events, c, noteId, userId)
  {
    if TombstoneAt(events, bound, noteId, userId) then Some(bound)
    else if bound == 0 then None
    else LastTombstone(events, noteId, userId, bound - 1)
  }

  function TombstoneNotes(events: map<nat, Event>, userId: Id, bound: nat): set<Id> {
    set c | c in events && c <= bound && events[c].noteId.Some? && Tombstone(events[c], userId) :: events[c].noteId.value
  }

  function AcknowledgedNotes(log: Log, userId: Id, cursor: nat): map<NoteUser, nat> {
    map noteId | noteId in TombstoneNotes(log.events, userId, cursor) && LastTombstone(log.events, noteId, userId, cursor).Some? ::
      NoteUser(noteId, userId) :=
        var last := LastTombstone(log.events, noteId, userId, cursor).value;
        if NoteUser(noteId, userId) in log.acknowledgements then Max(log.acknowledgements[NoteUser(noteId, userId)], last) as nat else last
  }

  function Acknowledged(log: Log, userId: Id, cursor: nat): Log {
    log.(cursors := log.cursors[userId := if userId in log.cursors then Max(log.cursors[userId], cursor) as nat else cursor],
         acknowledgements := log.acknowledgements + AcknowledgedNotes(log, userId, cursor))
  }

  // ----- pruning -----

  /** An active member, the acting user, or a tombstone's addressee has not come this far. */
  predicate Needed(log: Log, cursor: nat, e: Event) {
    || (exists m :: m in log.active && e.noteId == Some(m.noteId) && CursorOf(log.cursors, m.userId) < cursor)
    || (e.noteId.None? && e.actorUserId in log.users && CursorOf(log.cursors, e.actorUserId) < cursor)
    || (exists u :: u in log.users && Tombstone(e, u) && CursorOf(log.cursors, u) < cursor)
  }

  /** The event rows nobody needs, up to the bound. */
  function Doomed(log: Log, through: nat): set<nat> {
    set c | c in log.events && c <= through && !Needed(log, c, log.events[c])
  }

  /** The acknowledgement still has an event to hide. */
  predicate StillHides(events: map<nat, Event>, key: NoteUser, cursor: nat) {
    exists c :: c in events && c <= cursor && TombstoneAt(events, c, key.noteId, key.userId)
  }

  function Stale(events: map<nat, Event>, acknowledgements: map<NoteUser, nat>): set<NoteUser> {
    set key | key in acknowledgements && !StillHides(events, key, acknowledgements[key])
  }

  function Pruned(log: Log, through: nat): Log {
    var events := log.events - Doomed(log, through);
    log.(events := events, acknowledgements := log.acknowledgements - Stale(events, log.acknowledgements))
  }

  // ----- who sees what, and what each statement does, said on the rows -----

  /** The event tells this user that the note is gone for them: they were revoked, or could see it when it was deleted. */
  predicate Addresses(e: Event, userId: Id) {
    || (e.eventType == MembershipRevoked && e.membershipUserId == Some(userId))
    || (e.eventType == NotePermanentlyDeleted && userId in e.visibleUserIds)
  }

  /** An active member of the event's note, its actor when it has no note, or an addressee that has not acknowledged it. */
  predicate Shows(log: Log, userId: Id, cursor: nat) {
    && cursor in log.events
    && var e := log.events[cursor];
    && match e.noteId
       case None => e.actorUserId == userId || Addresses(e, userId)
       case Some(noteId) =>
         || NoteUser(noteId, userId) in log.active
         || (Addresses(e, userId)
             && (NoteUser(noteId, userId) in log.acknowledgements ==> log.acknowledgements[NoteUser(noteId, userId)] < cursor))
  }

  /** In order, within the limit, nothing hidden shown, and nothing left out unless the page is full before it. */
  ghost predicate ListAnswer(log: Log, userId: Id, after: nat, limit: nat, list: seq<nat>) {
    && |list| <= limit && Ascending(list)
    && (forall c :: c in list ==> c > after && Shows(log, userId, c))
    && (forall c :: c in log.events && c > after && Shows(log, userId, c) && c !in list ==>
          |list| == limit && forall d :: d in list ==> d < c)
  }

  lemma ListTerms(log: Log, userId: Id, after: nat, limit: nat)
    ensures ListAnswer(log, userId, after, limit, Listing(log, userId, after, limit))
  {
    hide FirstOf, Ascending;
    FirstOfIsAPage(VisibleCursors(log, userId, after), limit);
    forall c: nat ensures Visible(log, userId, after, c) <==> c > after && Shows(log, userId, c) {
    }
  }

  /** The event is about the note and addressed to the user, and not later than the bound. */
  predicate ToldBy(events: map<nat, Event>, key: NoteUser, bound: nat, c: nat) {
    c in events && c <= bound && events[c].noteId == Some(key.noteId) && Addresses(events[c], key.userId)
  }

  /** The acknowledgement of one note: the latest event it was told by, unless a later one was acknowledged before. */
  ghost predicate AcknowledgesNote(before: Log, after: Log, key: NoteUser, cursor: nat) {
    var told := exists c :: ToldBy(before.events, key, cursor, c);
    && (key in after.acknowledgements <==> key in before.acknowledgements || told)
    && (!told && key in before.acknowledgements ==> after.acknowledgements[key] == before.acknowledgements[key])
    && (told ==>
          && (forall c :: ToldBy(before.events, key, cursor, c) ==> c <= after.acknowledgements[key])
          && (key in before.acknowledgements ==> before.acknowledgements[key] <= after.acknowledgements[key])
          && ((key in before.acknowledgements && after.acknowledgements[key] == before.acknowledgements[key])
              || ToldBy(before.events, key, cursor, after.acknowledgements[key])))
  }

  ghost predicate AcknowledgeAnswer(before: Log, userId: Id, cursor: nat, after: Log) {
    && after == before.(cursors := after.cursors, acknowledgements := after.acknowledgements)
    && userId in after.cursors && after.cursors - {userId} == before.cursors - {userId}
    && cursor <= after.cursors[userId]
    && (if userId in before.cursors && cursor < before.cursors[userId] then after.cursors[userId] == before.cursors[userId]
        else after.cursors[userId] == cursor)
    && (forall key: NoteUser :: key.userId == userId ==> AcknowledgesNote(before, after, key, cursor))
    && (forall key: NoteUser :: key.userId != userId ==>
          && (key in after.acknowledgements <==> key in before.acknowledgements)
          && (key in before.acknowledgements ==> after.acknowledgements[key] == before.acknowledgements[key]))
  }

  lemma AcknowledgeTerms(log: Log, userId: Id, cursor: nat)
    ensures AcknowledgeAnswer(log, userId, cursor, Acknowledged(log, userId, cursor))
  {
    hide AcknowledgedNotes, AcknowledgesNote;
    var next := Acknowledged(log, userId, cursor);
    AcknowledgedForUser(log, userId, cursor);
    forall key: NoteUser | key.userId == userId ensures AcknowledgesNote(log, next, key, cursor) {
      NoteAcknowledged(log, key, cursor);
    }
  }

  lemma AcknowledgedForUser(log: Log, userId: Id, cursor: nat)
    ensures forall key :: key in AcknowledgedNotes(log, userId, cursor) ==> key.userId == userId
  {
  }

  lemma NoteAcknowledged(log: Log, key: NoteUser, cursor: nat)
    ensures AcknowledgesNote(log, Acknowledged(log, key.userId, cursor), key, cursor)
  {
    hide TombstoneNotes, LastTombstone;
    forall c: nat ensures ToldBy(log.events, key, cursor, c) <==> c <= cursor && TombstoneAt(log.events, c, key.noteId, key.userId) {
    }
    NoteIsTold(log, key, cursor);
    assert key in AcknowledgedNotes(log, key.userId, cursor) <==>
      key.noteId in TombstoneNotes(log.events, key.userId, cursor) && LastTombstone(log.events, key.noteId, key.userId, cursor).Some?;
  }

  lemma NoteIsTold(log: Log, key: NoteUser, cursor: nat)
    ensures key.noteId in TombstoneNotes(log.events, key.userId, cursor)
      <==> exists c: nat :: c <= cursor && TombstoneAt(log.events, c, key.noteId, key.userId)
    ensures key.noteId in TombstoneNotes(log.events, key.userId, cursor)
      <==> LastTombstone(log.events, key.noteId, key.userId, cursor).Some?
  {
    hide Tombstone;
    if c: nat :| c <= cursor && TombstoneAt(log.events, c, key.noteId, key.userId) {
      assert log.events[c].noteId.value in TombstoneNotes(log.events, key.userId, cursor);
    }
    if key.noteId in TombstoneNotes(log.events, key.userId, cursor) {
      var c: nat :| c in log.events && c <= cursor && log.events[c].noteId.Some? && Tombstone(log.events[c], key.userId)
        && log.events[c].noteId.value == key.noteId;
      assert TombstoneAt(log.events, c, key.noteId, key.userId);
    }
  }

  /** Someone who should be shown this event has not acknowledged a cursor as late as its own. */
  ghost predicate Awaited(log: Log, cursor: nat) {
    && cursor in log.events
    && exists u :: (if u in log.cursors then log.cursors[u] else 0) < cursor && AwaitedBy(log, log.events[cursor], u)
  }

  predicate AwaitedBy(log: Log, e: Event, userId: Id) {
    || (e.noteId.Some? && NoteUser(e.noteId.value, userId) in log.active)
    || (e.noteId.None? && e.actorUserId == userId && userId in log.users)
    || (userId in log.users && Addresses(e, userId))
  }

  /** Events up to the bound go unless awaited; acknowledgements go unless they hide a remaining event. */
  ghost predicate PruneAnswer(before: Log, through: nat, after: Log) {
    && after == before.(events := after.events, acknowledgements := after.acknowledgements)
    && (forall c :: c in after.events ==> c in before.events && after.events[c] == before.events[c])
    && (forall c :: c in before.events ==> (c in after.events <==> through < c || Awaited(before, c)))
    && (forall key :: key in after.acknowledgements ==>
          key in before.acknowledgements && after.acknowledgements[key] == before.acknowledgements[key])
    && (forall key :: key in before.acknowledgements ==>
          (key in after.acknowledgements <==> exists c :: ToldBy(after.events, key, before.acknowledgements[key], c)))
  }

  lemma PruneTerms(log: Log, through: nat)
    ensures PruneAnswer(log, through, Pruned(log, through))
  {
    hide Awaited, Needed;
    var next := Pruned(log, through);
    forall c | c in log.events ensures Needed(log, c, log.events[c]) <==> Awaited(log, c) {
      NeededIsAwaited(log, c);
    }
    forall key | key in log.acknowledgements
      ensures StillHides(next.events, key, log.acknowledgements[key])
        <==> exists c :: ToldBy(next.events, key, log.acknowledgements[key], c)
    {
      HidesIsTold(next.events, key, log.acknowledgements[key]);
    }
  }

  lemma NeededIsAwaited(log: Log, cursor: nat)
    requires cursor in log.events
    ensures Needed(log, cursor, log.events[cursor]) <==> Awaited(log, cursor)
  {
    var e := log.events[cursor];
    if m :| m in log.active && e.noteId == Some(m.noteId) && CursorOf(log.cursors, m.userId) < cursor {
      assert NoteUser(e.noteId.value, m.userId) == m;
      assert AwaitedBy(log, e, m.userId);
    }
    if e.noteId.None? && e.actorUserId in log.users && CursorOf(log.cursors, e.actorUserId) < cursor {
      assert AwaitedBy(log, e, e.actorUserId);
    }
    if u :| u in log.users && Tombstone(e, u) && CursorOf(log.cursors, u) < cursor {
      assert AwaitedBy(log, e, u);
    }
    if Awaited(log, cursor) {
      var u :| (if u in log.cursors then log.cursors[u] else 0) < cursor && AwaitedBy(log, e, u);
      if e.noteId.Some? && NoteUser(e.noteId.value, u) in log.active {
        assert NoteUser(e.noteId.value, u).userId == u;
      }
    }
  }

  lemma HidesIsTold(events: map<nat, Event>, key: NoteUser, bound: nat)
    ensures StillHides(events, key, bound) <==> exists c :: ToldBy(events, key, bound, c)
  {
    if c :| c in events && c <= bound && TombstoneAt(events, c, key.noteId, key.userId) {
      assert ToldBy(events, key, bound, c);
    }
    if c :| ToldBy(events, key, bound, c) {
      assert TombstoneAt(events, c, key.noteId, key.userId);
    }
  }

  class PostgresEventReplay {
    var events: map<nat, Event>
    var cursors: map<Id, nat>
    var acknowledgements: map<NoteUser, nat>
    var active: set<NoteUser>
    var users: set<Id>

    function Contents(): Log
      reads this
    {
      Log(events, cursors, acknowledgements, active, users)
    }

    constructor (users: set<Id>)
      ensures Contents() == Log(map[], map[], map[], {}, users)
    {
      events, cursors, acknowledgements, active, this.users := map[], map[], map[], {}, users;
    }

    method ListVisible(userId: Id, after: nat, limit: nat) returns (list: seq<nat>)
      ensures list == Listing(Contents(), userId, after, limit)
      ensures ListAnswer(Contents(), userId, after, limit, list)
    {
      hide ListAnswer, Visible, VisibleCursors, Acknowledged, Pruned;
      ListTerms(Contents(), userId, after, limit);
      list := [];
      var rest := VisibleCursors(Contents(), userId, after);
      ghost var visible := rest;
      while rest != {} && |list| < limit
        invariant |list| <= limit
        invariant list + FirstOf(rest, limit - |list|) == FirstOf(visible, limit)
        decreases |rest|
      {
        LeastExists(rest);
        var next :| next in rest && forall other :: other in rest ==> next <= other;
        assert next == Least(rest);
        list := list + [next];
        rest := rest - {next};
      }
    }

    method Acknowledge(userId: Id, cursor: nat)
      modifies this`cursors, this`acknowledgements
      ensures Contents() == Acknowledged(old(Contents()), userId, cursor)
      ensures AcknowledgeAnswer(old(Contents()), userId, cursor, Contents())
    {
      hide AcknowledgeAnswer;
      AcknowledgeTerms(Contents(), userId, cursor);
      cursors := cursors[userId := if userId in cursors && cursors[userId] > cursor then cursors[userId] else cursor];
      acknowledgements := acknowledgements + AcknowledgedNotes(Contents(), userId, cursor);
    }

    method AcknowledgedCursor(userId: Id) returns (cursor: nat)
      ensures cursor == CursorOf(cursors, userId)
      ensures if userId in cursors then cursor == cursors[userId] else cursor == 0
    {
      return if userId in cursors then cursors[userId] else 0;
    }

    /** `None` stands for an unbounded prune. */
    method Prune(beforeCursor: Option<int>) returns (through: nat, deletedEvents: nat, deletedAcknowledgements: nat)
      modifies this`events, this`acknowledgements
      ensures through == if beforeCursor.None? then MAX_SAFE_INTEGER else Max(0, beforeCursor.value)
      ensures through > 0 ==> Contents() == Pruned(old(Contents()), through) && PruneAnswer(old(Contents()), through, Contents())
      ensures through == 0 ==> Contents() == old(Contents())
      ensures deletedEvents == |old(events)| - |events| && deletedAcknowledgements == |old(acknowledgements)| - |acknowledgements|
    {
      through := if beforeCursor.None? then MAX_SAFE_INTEGER else Max(0, beforeCursor.value);
      if through == 0 {
        return 0, 0, 0;
      }
      hide Doomed, Stale, PruneAnswer;
      PruneTerms(Contents(), through);
      var eventRows, acknowledgementRows := |events|, |acknowledgements|;
      var doomed := Doomed(Contents(), through);
      FewerKeys(events, doomed);
      events := events - doomed;
      var stale := Stale(events, acknowledgements);
      FewerKeys(acknowledgements, stale);
      acknowledgements := acknowledgements - stale;
      deletedEvents, deletedAcknowledgements := eventRows - |events|, acknowledgementRows - |acknowledgements|;
    }
  }

  lemma FewerKeys<K, V>(m: map<K, V>, gone: set<K>)
    ensures |m - gone| <= |m|
  {
    Totals.SubsetSize((m - gone).Keys, m.Keys);
  }

  // ----- results -----

  /** A page as long as the log leaves nothing out. */
  lemma UnlimitedListsAll(log: Log, userId: Id, after: nat, limit: nat, cursor: nat)
    requires |log.events| <= limit
    ensures cursor in Listing(log, userId, after, limit) <==> cursor > after && Shows(log, userId, cursor)
  {
    hide Shows;
    ListTerms(log, userId, after, limit);
    var list := Listing(log, userId, after, limit);
    forall c | c in list ensures c in log.events { ShownIsThere(log, userId, c); }
    ShownIsThere(log, userId, cursor);
    MissingMeansShorter(list, log.events.Keys, cursor);
    assert |log.events.Keys| == |log.events|;
  }

  lemma MissingMeansShorter(list: seq<nat>, s: set<nat>, missing: nat)
    requires Ascending(list) && forall c :: c in list ==> c in s
    ensures missing in s && missing !in list ==> |list| < |s|
  {
    if missing in s && missing !in list {
      AscendingFits(list, s - {missing});
    }
  }

  lemma ShownIsThere(log: Log, userId: Id, cursor: nat)
    ensures Shows(log, userId, cursor) ==> cursor in log.events
  {
  }

  lemma {:induction false} AscendingFits(list: seq<nat>, s: set<nat>)
    requires Ascending(list) && forall c :: c in list ==> c in s
    ensures |list| <= |s|
  {
    if list != [] {
      var last := |list| - 1;
      assert list[last] in s;
      AscendingFits(list[..last], s - {list[last]});
    }
  }

  /**
   A revocation is listed, however long the page, for exactly the note's active members and the
   revoked user until that user acknowledges it.
   */
  lemma RevocationReaches(log: Log, cursor: nat, noteId: Id, revokedUserId: Id, userId: Id, after: nat, limit: nat)
    requires cursor in log.events && after < cursor && |log.events| <= limit
    requires log.events[cursor].eventType == MembershipRevoked && log.events[cursor].noteId == Some(noteId)
    requires log.events[cursor].membershipUserId == Some(revokedUserId)
    requires NoteUser(noteId, revokedUserId) in log.acknowledgements ==> log.acknowledgements[NoteUser(noteId, revokedUserId)] < cursor
    ensures cursor in Listing(log, userId, after, limit) <==> userId == revokedUserId || NoteUser(noteId, userId) in log.active
  {
    UnlimitedListsAll(log, userId, after, limit, cursor);
  }

  /** A permanent deletion is listed for exactly the users it names who have not acknowledged it, and members still active. */
  lemma DeletionReaches(log: Log, cursor: nat, noteId: Id, userId: Id, after: nat, limit: nat)
    requires cursor in log.events && after < cursor && |log.events| <= limit
    requires log.events[cursor].eventType == NotePermanentlyDeleted && log.events[cursor].noteId == Some(noteId)
    requires NoteUser(noteId, userId) in log.acknowledgements ==> log.acknowledgements[NoteUser(noteId, userId)] < cursor
    ensures cursor in Listing(log, userId, after, limit)
      <==> userId in log.events[cursor].visibleUserIds || NoteUser(noteId, userId) in log.active
  {
    UnlimitedListsAll(log, userId, after, limit, cursor);
  }

  /** From the acknowledged cursor on, pruning changes nothing that a user can see. */
  lemma PruneKeepsVisible(log: Log, through: nat, userId: Id, after: nat, cursor: nat)
    requires userId in log.users && after >= CursorOf(log.cursors, userId)
    ensures Visible(Pruned(log, through), userId, after, cursor) <==> Visible(log, userId, after, cursor)
  {
    hide Tombstone;
    var next := Pruned(log, through);
    if cursor in log.events && cursor > after {
      var e := log.events[cursor];
      assert CursorOf(log.cursors, userId) < cursor;
      if ByMembership(log, e, userId) {
        assert NoteUser(e.noteId.value, userId) in log.active;
        assert Needed(log, cursor, e);
      } else if ByActor(e, userId) || Tombstone(e, userId) {
        assert Needed(log, cursor, e);
        if Tombstone(e, userId) && e.noteId.Some? {
          HidingStays(log, through, cursor, userId);
        }
      }
    }
  }

  /** An acknowledgement that hides a remaining event is kept. */
  lemma HidingStays(log: Log, through: nat, cursor: nat, userId: Id)
    requires cursor in log.events && Needed(log, cursor, log.events[cursor]) && log.events[cursor].noteId.Some? && Tombstone(log.events[cursor], userId)
    ensures Unacknowledged(Pruned(log, through), cursor, log.events[cursor], userId) <==> Unacknowledged(log, cursor, log.events[cursor], userId)
  {
    hide Tombstone, Needed;
    var e := log.events[cursor];
    var key := NoteUser(e.noteId.value, userId);
    var next := Pruned(log, through);
    if key in log.acknowledgements && log.acknowledgements[key] >= cursor {
      assert TombstoneAt(next.events, cursor, e.noteId.value, userId);
      assert StillHides(next.events, key, log.acknowledgements[key]);
    }
  }

  /**
   Pruning is invisible to anyone who still needs events: for every user, every cursor at or
   above the one they acknowledged, and every page size, the answer is the same list.
   */
  lemma PruneIsInvisible(log: Log, through: nat, userId: Id, after: nat, limit: nat)
    requires userId in log.users && after >= CursorOf(log.cursors, userId)
    ensures Listing(Pruned(log, through), userId, after, limit) == Listing(log, userId, after, limit)
    ensures forall c :: c in Listing(log, userId, after, limit) ==>
      c in Pruned(log, through).events && c in log.events && Pruned(log, through).events[c] == log.events[c]
  {
    hide Pruned, FirstOf, Ascending;
    forall c ensures Visible(Pruned(log, through), userId, after, c) <==> Visible(log, userId, after, c) {
      PruneKeepsVisible(log, through, userId, after, c);
    }
    assert VisibleCursors(Pruned(log, through), userId, after) == VisibleCursors(log, userId, after);
    FirstOfIsAPage(VisibleCursors(log, userId, after), limit);
    PrunedKeepsRows(log, through);
  }

  lemma PrunedKeepsRows(log: Log, through: nat)
    ensures forall c :: c in Pruned(log, through).events ==> c in log.events && Pruned(log, through).events[c] == log.events[c]
  {
  }

  // ----- acknowledged tombstones stay away -----

  datatype Step =
    | AppendStep(cursor: nat, event: Event)
    | AcknowledgeStep(userId: Id, cursor: nat)
    | PruneStep(through: nat)
    | MembershipStep(key: NoteUser, isActive: bool)
    | UserStep(userId: Id)

  function Next(log: Log, step: Step): Log {
    match step
    case AppendStep(cursor, event) => if cursor in log.events then log else log.(events := log.events[cursor := event])
    case AcknowledgeStep(userId, cursor) => Acknowledged(log, userId, cursor)
    case PruneStep(through) => Pruned(log, through)
    case MembershipStep(key, isActive) => log.(active := if isActive then log.active + {key} else log.active - {key})
    case UserStep(userId) => log.(users := log.users + {userId})
  }

  function Run(log: Log, steps: seq<Step>): Log
    decreases |steps|
  {
    if steps == [] then log else Run(Next(log, steps[0]), steps[1..])
  }

  /** The event is gone, or its acknowledgement is on record. */
  ghost predicate Settled(log: Log, cursor: nat, e: Event, userId: Id) {
    cursor !in log.events || (log.events[cursor] == e && !Unacknowledged(log, cursor, e, userId))
  }

  lemma AcknowledgeSettles(log: Log, userId: Id, cursor: nat, c: nat)
    requires c in log.events && c <= cursor && log.events[c].noteId.Some? && Tombstone(log.events[c], userId)
    ensures Settled(Acknowledged(log, userId, cursor), c, log.events[c], userId)
  {
    hide Tombstone;
    var noteId := log.events[c].noteId.value;
    assert TombstoneAt(log.events, c, noteId, userId);
    assert noteId in TombstoneNotes(log.events, userId, cursor);
    var last := LastTombstone(log.events, noteId, userId, cursor);
    assert last.Some? && last.value >= c;
    assert NoteUser(noteId, userId) in AcknowledgedNotes(log, userId, cursor);
  }

  lemma AcknowledgeOnlyGrows(log: Log, userId: Id, cursor: nat)
    ensures forall key :: key in log.acknowledgements ==>
      key in Acknowledged(log, userId, cursor).acknowledgements
      && log.acknowledgements[key] <= Acknowledged(log, userId, cursor).acknowledgements[key]
  {
    hide TombstoneNotes, LastTombstone;
  }

  lemma StepKeepsSettled(log: Log, step: Step, cursor: nat, e: Event, userId: Id)
    requires Settled(log, cursor, e, userId) && e.noteId.Some? && Tombstone(e, userId)
    requires cursor !in log.events ==> !(step.AppendStep? && step.cursor == cursor)
    ensures Settled(Next(log, step), cursor, e, userId)
  {
    hide Tombstone, Acknowledged, Needed;
    match step
    case AcknowledgeStep(other, upTo) =>
      AcknowledgeOnlyGrows(log, other, upTo);
      AcknowledgeKeepsEvents(log, other, upTo);
    case PruneStep(through) =>
      if cursor in Pruned(log, through).events {
        var key := NoteUser(e.noteId.value, userId);
        assert TombstoneAt(Pruned(log, through).events, cursor, e.noteId.value, userId);
        assert StillHides(Pruned(log, through).events, key, log.acknowledgements[key]);
      }
    case _ =>
  }

  lemma AcknowledgeKeepsEvents(log: Log, userId: Id, cursor: nat)
    ensures Acknowledged(log, userId, cursor).events == log.events
  {
  }

  /** Cursors are a serial column: a deleted row's cursor is never given out again. */
  ghost predicate NeverReused(steps: seq<Step>, cursor: nat) {
    forall i :: 0 <= i < |steps| && steps[i].AppendStep? ==> steps[i].cursor != cursor
  }

  lemma {:induction false} RunKeepsSettled(log: Log, steps: seq<Step>, cursor: nat, e: Event, userId: Id)
    requires Settled(log, cursor, e, userId) && e.noteId.Some? && Tombstone(e, userId) && NeverReused(steps, cursor)
    ensures Settled(Run(log, steps), cursor, e, userId)
    decreases |steps|
  {
    hide Settled, Next, Tombstone;
    if steps != [] {
      StepKeepsSettled(log, steps[0], cursor, e, userId);
      RunKeepsSettled(Next(log, steps[0]), steps[1..], cursor, e, userId);
    }
  }

  /**
   A tombstone the user has acknowledged never comes back: whatever is appended, acknowledged
   or pruned later (pruning deletes acknowledgements too), it is shown to that user again only
   if they are an active member of the note.
   */
  lemma AcknowledgedTombstonesStayAway(log: Log, userId: Id, upTo: nat, cursor: nat, steps: seq<Step>, after: nat)
    requires cursor in log.events && cursor <= upTo && log.events[cursor].noteId.Some? && Tombstone(log.events[cursor], userId)
    requires NeverReused(steps, cursor)
    ensures var last := Run(Acknowledged(log, userId, upTo), steps);
      Visible(last, userId, after, cursor) ==> ByMembership(last, last.events[cursor], userId)
  {
    hide Run, Acknowledged, Tombstone;
    AcknowledgeSettles(log, userId, upTo, cursor);
    RunKeepsSettled(Acknowledged(log, userId, upTo), steps, cursor, log.events[cursor], userId);
  }

  /** Acknowledged cursors never go back. */
  lemma {:induction false} CursorsNeverGoBack(log: Log, steps: seq<Step>, userId: Id)
    ensures CursorOf(log.cursors, userId) <= CursorOf(Run(log, steps).cursors, userId)
    decreases |steps|
  {
    hide Needed, AcknowledgedNotes, Pruned;
    if steps != [] {
      StepKeepsCursors(log, steps[0], userId);
      CursorsNeverGoBack(Next(log, steps[0]), steps[1..], userId);
    }
  }

  lemma StepKeepsCursors(log: Log, step: Step, userId: Id)
    ensures CursorOf(log.cursors, userId) <= CursorOf(Next(log, step).cursors, userId)
  {
    hide Needed, AcknowledgedNotes;
  }
}
