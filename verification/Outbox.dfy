/**
 The encrypted outbox of one account: what one flush of a fence does to the durable stores
 and to the wire when nothing else runs in between. `OutboxDelivery` treats interleavings.
 */
module Outbox {
  import opened Basics
  import opened SectionHistory
  import opened OutboxStore

  predicate Due(record: OutboxRecord, now: nat, retryDelay: nat) {
    !record.state.TerminalRejected? && !(record.state.Sending? && record.updatedAt + retryDelay > now)
  }

  function Resent(record: OutboxRecord, now: nat): OutboxRecord {
    record.(attempts := record.attempts + 1, state := Sending, updatedAt := now)
  }

  /** A record after a flush: None when it was acknowledged and could go. */
  function Flushed(record: OutboxRecord, acknowledged: bool, now: nat, retryDelay: nat): Option<OutboxRecord> {
    if record.state.TerminalRejected? then Some(record)
    else if acknowledged then None
    else if Due(record, now, retryDelay) then Some(Resent(record, now))
    else Some(record)
  }

  function FlushedKeys(store: Store, keys: set<OutboxKey>, now: nat, retryDelay: nat): map<OutboxKey, OutboxRecord> {
    map key | key in store.outbox
      && (key in keys ==> Flushed(store.outbox[key], key in store.acknowledgements, now, retryDelay).Some?)
      :: if key in keys then Flushed(store.outbox[key], key in store.acknowledgements, now, retryDelay).value
         else store.outbox[key]
  }

  function FenceKeys(store: Store, fence: Fence): set<OutboxKey> {
    set key | key in store.outbox && FenceOf(key) == fence
  }

  /** What a tab's outbox reads and writes: the durable stores, the wire and its timers. */
  datatype Tab = Tab(store: Store, leases: map<Fence, Lease>, wire: seq<OutboxRecord>, timers: set<Fence>)

  /** The durable change notification: every active fence is scheduled, if the outbox is open and connected. */
  function Notified(timers: set<Fence>, active: set<Fence>, open: bool): set<Fence> { if open then timers + active else timers }

  class EncryptedOutbox {
    const database: FortnoteIndexedDb
    const userId: Id
    const ownerId: Id
    const retryDelay: nat
    const leaseDuration: nat
    var activeFences: set<Fence>
    var terminalFences: map<Fence, TerminalReason>
    var retryTimers: set<Fence>
    var closed: bool
    var transport: bool
    var wire: seq<OutboxRecord>

    constructor (database: FortnoteIndexedDb, userId: Id, ownerId: Id, retryDelay: nat, leaseDuration: nat, transport: bool)
      ensures this.database == database && this.userId == userId
      ensures activeFences == {} && terminalFences == map[] && retryTimers == {} && !closed && wire == []
      ensures this.transport == transport
    {
      this.database, this.userId, this.ownerId := database, userId, ownerId;
      this.retryDelay, this.leaseDuration := retryDelay, leaseDuration;
      activeFences, terminalFences, retryTimers := {}, map[], {};
      closed, this.transport, wire := false, transport, [];
    }

    function Now(): Tab
      reads this, database
    {
      Tab(database.Contents(), database.leases, wire, retryTimers)
    }

    /** A record queued behind a rejected fence is kept as a draft and never sent; an active fence is flushed. */
    method Enqueue(record: OutboxRecord, now: nat, carries: OutboxRecord -> bool)
        returns (ok: bool, ghost sent: nat)
      requires Keyed(database.outbox)
      modifies this`wire, this`retryTimers, database
      ensures ok <==> record.key.userId == userId
      ensures !ok ==> Now() == old(Now())
      ensures ok ==>
        var fence := FenceOf(record.key);
        var queued := old(Now()).(store := PutOutbox(old(database.Contents()), Enqueued(record, terminalFences, now)),
                                  timers := Notified(old(retryTimers), activeFences, !closed && transport));
        && (if fence in terminalFences || fence !in activeFences || !transport then Now() == queued
            else FlushEnds(queued, Now(), sent, fence, !closed, activeFences, ownerId, now, retryDelay, leaseDuration, carries))
        && QueuedAs(old(database.Contents()), queued.store, record, terminalFences, now)
    {
      hide FlushEnds, QueuedAs;
      QueuedTerms(database.Contents(), record, terminalFences, now);
      if record.key.userId != userId {
        return false, 0;
      }
      var fence := FenceOf(record.key);
      if fence in terminalFences {
        database.Put(record.(state := TerminalRejected, terminalReason := Some(terminalFences[fence]),
                             terminalRejectedAt := Some(now), updatedAt := now));
        OutboxChanged();
        return true, 0;
      }
      database.Put(record);
      OutboxChanged();
      ok, sent := true, 0;
      if fence in activeFences && transport {
        sent := FlushFence(fence, now, carries);
      }
    }

    /** The listener on the durable outbox. */
    method OutboxChanged()
      modifies this`retryTimers
      ensures retryTimers == Notified(old(retryTimers), activeFences, !closed && transport)
      ensures forall fence :: fence in retryTimers <==> fence in old(retryTimers) || (!closed && transport && fence in activeFences)
    {
      if !closed && transport {
        retryTimers := retryTimers + activeFences;
      }
    }

    method PreserveTerminalFence(fence: Fence, reason: TerminalReason, now: nat)
      modifies this`terminalFences, this`activeFences, this`retryTimers, database`outbox
      ensures terminalFences == old(terminalFences)[fence := reason]
      ensures activeFences == old(activeFences) - {fence}
      ensures retryTimers == if FenceKeys(old(database.Contents()), fence) == {} then old(retryTimers) - {fence}
                             else Notified(old(retryTimers) - {fence}, activeFences, !closed && transport)
      ensures database.Contents() == PreserveFence(old(database.Contents()), fence, reason, now)
    {
      terminalFences := terminalFences[fence := reason];
      activeFences := activeFences - {fence};
      retryTimers := retryTimers - {fence};
      var retained := FenceKeys(database.Contents(), fence);
      database.PreserveOutboxFence(fence, reason, now);
      if retained != {} {
        OutboxChanged();
      }
    }

    method ScheduleFlush(fence: Fence)
      modifies this`retryTimers
      ensures retryTimers == if closed || !transport || fence !in activeFences then old(retryTimers) else old(retryTimers) + {fence}
    {
      if closed || !transport || fence !in activeFences {
        return;
      }
      retryTimers := retryTimers + {fence};
    }

    /**
     `acknowledge` when either transaction of the store may fail: an error is swallowed exactly
     when the acknowledgement is on disk, and the record then waits for the next flush.
     */
    method Acknowledge(record: OutboxRecord, serverSequence: nat, firstFails: bool, secondFails: bool)
        returns (ok: bool)
      modifies database`outbox, database`acknowledgements
      ensures ok <==> record.key.userId == userId && (!firstFails || record.key in old(database.acknowledgements))
      ensures record.key.userId != userId || firstFails ==> database.Contents() == old(database.Contents())
      ensures record.key.userId == userId && !firstFails ==>
        var noted := PutAcknowledgement(old(database.Contents()), record.key, serverSequence);
        database.Contents() == if secondFails then noted else DropAcknowledged(noted, record.key)
    {
      if record.key.userId != userId {
        return false;
      }
      if firstFails {
        return record.key in database.acknowledgements;
      }
      database.WriteAcknowledgement(record.key, serverSequence);
      if !secondFails {
        database.DropAcknowledgedRecord(record.key);
      }
      return true;
    }

    method Deactivate(fence: Fence)
      modifies this`activeFences, this`retryTimers
      ensures activeFences == old(activeFences) - {fence} && retryTimers == old(retryTimers) - {fence}
    {
      activeFences := activeFences - {fence};
      retryTimers := retryTimers - {fence};
    }

    /** A fence that already holds a rejected draft stays rejected and sends nothing; any other is flushed. */
    method Activate(fence: Fence, now: nat, carries: OutboxRecord -> bool) returns (sent: nat)
      requires Keyed(database.outbox) && fence.userId == userId
      modifies this, database
      ensures HasDraft(old(database.Contents()), fence) ==>
        && sent == 0 && activeFences == old(activeFences) - {fence}
        && terminalFences.Keys == old(terminalFences).Keys + {fence}
        && OldestDraftSays(old(database.Contents()), fence, terminalFences[fence])
        && Now() == Tab(PreserveFence(old(database.Contents()), fence, terminalFences[fence], now), old(database.leases), old(wire),
                        Notified(old(retryTimers) - {fence}, activeFences, !closed && transport))
      ensures !HasDraft(old(database.Contents()), fence) ==>
        && activeFences == old(activeFences) + {fence} && terminalFences == old(terminalFences)
        && FlushEnds(old(Now()), Now(), sent, fence, !closed && transport, activeFences, ownerId, now, retryDelay, leaseDuration, carries)
      ensures closed == old(closed) && transport == old(transport)
    {
      hide FlushEnds;
      var listed := database.ListOutbox(userId);
      var i := FirstDraft(listed, fence);
      if i < |listed| {
        FirstIsOldest(listed, database.Contents(), userId, fence, i);
        PreserveTerminalFence(fence, listed[i].terminalReason.value, now);
        return 0;
      }
      ListedDraft(listed, database.Contents(), userId, fence);
      activeFences := activeFences + {fence};
      sent := FlushFence(fence, now, carries);
    }

    /**
     Sends what is due, oldest first, clears what is acknowledged, and arms a retry exactly
     when something is pending.
     */
    method FlushFence(fence: Fence, now: nat, carries: OutboxRecord -> bool) returns (sent: nat)
      requires Keyed(database.outbox) && fence.userId == userId
      modifies this`wire, this`retryTimers, database
      ensures FlushEnds(old(Now()), Now(), sent, fence, !closed && transport, activeFences, ownerId, now, retryDelay, leaseDuration, carries)
    {
      hide FlushedKeys, Outgoing, Waiting, FenceKeys, Puts;
      sent := 0;
      if closed || !transport || fence !in activeFences {
        return;
      }
      var listed := database.ListOutbox(userId);
      ListedSendable(listed, database.Contents(), userId, fence);
      if forall i :: 0 <= i < |listed| ==> FenceOf(listed[i].key) != fence || listed[i].state.TerminalRejected? {
        retryTimers := retryTimers - {fence};
        return;
      }
      var acquired := database.AcquireLease(fence, ownerId, now, leaseDuration);
      if !acquired {
        ScheduleFlush(fence);
        return;
      }
      sent := FlushListed(listed, fence, now, carries);
    }

    method FlushListed(listed: seq<OutboxRecord>, fence: Fence, now: nat, carries: OutboxRecord -> bool)
        returns (sent: nat)
      requires Keyed(database.outbox) && Lists(listed, database.outbox, userId) && fence.userId == userId
      requires !closed && transport && fence in activeFences
      modifies this`wire, this`retryTimers, database`outbox, database`acknowledgements
      ensures FlushDid(old(Now()), Now(), sent, fence, activeFences, now, retryDelay, carries)
    {
      sent := 0;
      ghost var before := Now();
      ghost var store := database.Contents();
      var hasPending := false;
      assert wire == old(wire) + Outgoing([], fence, store.acknowledgements, now, retryDelay, carries);
      for i := 0 to |listed|
        invariant Progress(before, Now(), sent, hasPending, listed[..i], fence, activeFences, now, retryDelay, carries)
      {
        sent, hasPending := FlushNext(listed, i, fence, now, carries, sent, hasPending, before);
      }
      assert listed[..|listed|] == listed;
      ListedKeys(listed, store, userId, fence, now, retryDelay);
      assert SentInOrder(listed, store, old(wire), wire, sent, fence, now, retryDelay, carries);
      if hasPending {
        ScheduleFlush(fence);
      } else {
        retryTimers := retryTimers - {fence};
      }
    }

    /** One turn of the loop. */
    method FlushNext(listed: seq<OutboxRecord>, i: nat, fence: Fence, now: nat, carries: OutboxRecord -> bool,
                     sentBefore: nat, pendingBefore: bool, ghost before: Tab)
      returns (sent: nat, hasPending: bool)
      requires i < |listed| && Lists(listed, before.store.outbox, userId) && !closed && transport
      requires Progress(before, Now(), sentBefore, pendingBefore, listed[..i], fence, activeFences, now, retryDelay, carries)
      modifies this`wire, this`retryTimers, database`outbox, database`acknowledgements
      ensures Progress(before, Now(), sent, hasPending, listed[..i + 1], fence, activeFences, now, retryDelay, carries)
    {
      hide FlushedKeys, Dispatch, Pending, IsPut, Lists;
      sent, hasPending := sentBefore, pendingBefore;
      assert listed[..i + 1][..i] == listed[..i];
      FreshKey(listed, i, fence, before.store.outbox, userId);
      ghost var outgoing := Outgoing(listed[..i], fence, before.store.acknowledgements, now, retryDelay, carries);
      assert outgoing + [] == outgoing && KeysOf(listed[..i], fence) + {} == KeysOf(listed[..i], fence);
      if FenceOf(listed[i].key) == fence {
        var delivered, pending := FlushOne(listed[i], now, carries, before.store, KeysOf(listed[..i], fence));
        sent := sent + delivered;
        hasPending := hasPending || pending;
      }
    }

    method FlushOne(record: OutboxRecord, now: nat, carries: OutboxRecord -> bool, ghost store: Store,
        ghost handled: set<OutboxKey>)
      returns (sent: nat, pending: bool)
      requires record.key in store.outbox && store.outbox[record.key] == record && record.key !in handled
      requires database.acknowledgements == store.acknowledgements
      requires database.outbox == FlushedKeys(store, handled, now, retryDelay)
      requires !closed && transport
      modifies this`wire, this`retryTimers, database`outbox, database`acknowledgements
      ensures database.acknowledgements == store.acknowledgements
      ensures retryTimers == if IsPut(store, record.key, now, retryDelay) then old(retryTimers) + activeFences else old(retryTimers)
      ensures database.outbox == FlushedKeys(store, handled + {record.key}, now, retryDelay)
      ensures wire == old(wire) + Dispatch(record, store.acknowledgements, now, retryDelay, carries)
      ensures sent == |Dispatch(record, store.acknowledgements, now, retryDelay, carries)|
      ensures pending <==> Pending(store, record.key)
    {
      sent, pending := 0, false;
      if record.state.TerminalRejected? {
        assert database.outbox == FlushedKeys(store, handled + {record.key}, now, retryDelay);
        return;
      }
      if record.key in database.acknowledgements {
        database.AcknowledgeOutbox(record, database.acknowledgements[record.key]);
        assert database.outbox == FlushedKeys(store, handled + {record.key}, now, retryDelay);
        return;
      }
      if record.state.Sending? && record.updatedAt + retryDelay > now {
        pending := true;
        assert database.outbox == FlushedKeys(store, handled + {record.key}, now, retryDelay);
        return;
      }
      var sending := record.(attempts := record.attempts + 1, state := Sending, updatedAt := now);
      database.Put(sending);
      OutboxChanged();
      assert database.outbox == FlushedKeys(store, handled + {record.key}, now, retryDelay);
      if carries(sending) {
        wire := wire + [sending];
        sent := 1;
      }
      pending := true;
    }
  }

  /**
   How a flush ends: nothing while the outbox is closed, disconnected or the fence inactive; no
   retry when nothing can be sent; a retry when another tab holds the lease; else a whole flush.
   */
  ghost predicate FlushEnds(before: Tab, after: Tab, sent: nat, fence: Fence, open: bool, active: set<Fence>, ownerId: Id, now: nat,
      retryDelay: nat, leaseDuration: nat, carries: OutboxRecord -> bool)
  {
    if !open || fence !in active then after == before && sent == 0
    else if !Sendable(before.store, fence) then after == before.(timers := before.timers - {fence}) && sent == 0
    else if !MayLease(before.leases, fence, ownerId, now) then after == before.(timers := before.timers + {fence}) && sent == 0
    else
      var leased := before.(leases := before.leases[fence := Lease(ownerId, now + leaseDuration)]);
      FlushDid(leased, after, sent, fence, active, now, retryDelay, carries)
  }

  /** What a whole flush leaves: every record of the fence handled, and on the wire what was due, oldest first. */
  ghost predicate FlushDid(before: Tab, after: Tab, sent: nat, fence: Fence, active: set<Fence>, now: nat, retryDelay: nat,
      carries: OutboxRecord -> bool)
  {
    var timers := if Puts(before.store, fence, now, retryDelay) then before.timers + active else before.timers;
    && after.store == before.store.(outbox := FlushedKeys(before.store, FenceKeys(before.store, fence), now, retryDelay))
    && after.leases == before.leases
    && after.timers == (if Waiting(before.store, fence) then timers + {fence} else timers - {fence})
    && exists listed :: SentInOrder(listed, before.store, before.wire, after.wire, sent, fence, now, retryDelay, carries)
  }

  ghost predicate SentInOrder(listed: seq<OutboxRecord>, before: Store, wireBefore: seq<OutboxRecord>,
      wire: seq<OutboxRecord>, sent: nat,
                              fence: Fence, now: nat, retryDelay: nat, carries: OutboxRecord -> bool) {
    var outgoing := Outgoing(listed, fence, before.acknowledgements, now, retryDelay, carries);
    Lists(listed, before.outbox, fence.userId) && wire == wireBefore + outgoing && sent == |outgoing|
  }

  predicate IsDraft(record: OutboxRecord) { record.state.TerminalRejected? && record.terminalReason.Some? }

  predicate HasDraft(store: Store, fence: Fence) {
    exists key :: key in store.outbox && FenceOf(key) == fence && IsDraft(store.outbox[key])
  }

  /** The fence's oldest draft carries this reason. */
  ghost predicate OldestDraftSays(store: Store, fence: Fence, reason: TerminalReason) {
    exists key :: key in FenceKeys(store, fence) && IsDraft(store.outbox[key]) && store.outbox[key].terminalReason == Some(reason)
      && forall other :: other in FenceKeys(store, fence) && IsDraft(store.outbox[other]) ==> store.outbox[key].createdAt <= store.outbox[other].createdAt
  }

  /** Array.prototype.find over the listing. */
  method FirstDraft(listed: seq<OutboxRecord>, fence: Fence) returns (i: nat)
    ensures i <= |listed|
    ensures i < |listed| ==> FenceOf(listed[i].key) == fence && IsDraft(listed[i])
    ensures forall j :: 0 <= j < i ==> !(FenceOf(listed[j].key) == fence && IsDraft(listed[j]))
  {
    i := 0;
    while i < |listed| && !(FenceOf(listed[i].key) == fence && IsDraft(listed[i]))
      invariant i <= |listed|
      invariant forall j :: 0 <= j < i ==> !(FenceOf(listed[j].key) == fence && IsDraft(listed[j]))
    {
      i := i + 1;
    }
  }

  lemma FirstIsOldest(listed: seq<OutboxRecord>, store: Store, userId: Id, fence: Fence, i: nat)
    requires Keyed(store.outbox) && Lists(listed, store.outbox, userId) && fence.userId == userId && i < |listed|
    requires FenceOf(listed[i].key) == fence && IsDraft(listed[i])
    requires forall j :: 0 <= j < i ==> !(FenceOf(listed[j].key) == fence && IsDraft(listed[j]))
    ensures OldestDraftSays(store, fence, listed[i].terminalReason.value) && HasDraft(store, fence)
    ensures FenceKeys(store, fence) != {}
  {
    assert Stored(listed[i], store.outbox, userId);
    var key := listed[i].key;
    assert key in FenceKeys(store, fence);
    forall other | other in FenceKeys(store, fence) && IsDraft(store.outbox[other]) ensures store.outbox[key].createdAt <= store.outbox[other].createdAt {
      var j :| 0 <= j < |listed| && listed[j] == store.outbox[other];
    }
  }

  lemma ListedDraft(listed: seq<OutboxRecord>, store: Store, userId: Id, fence: Fence)
    requires Keyed(store.outbox) && Lists(listed, store.outbox, userId) && fence.userId == userId
    requires forall i :: 0 <= i < |listed| ==> !(FenceOf(listed[i].key) == fence && IsDraft(listed[i]))
    ensures !HasDraft(store, fence)
  {
    forall key | key in store.outbox && FenceOf(key) == fence ensures !IsDraft(store.outbox[key]) {
      var j :| 0 <= j < |listed| && listed[j] == store.outbox[key];
    }
  }

  lemma ListedSendable(listed: seq<OutboxRecord>, store: Store, userId: Id, fence: Fence)
    requires Keyed(store.outbox) && Lists(listed, store.outbox, userId) && fence.userId == userId
    ensures Sendable(store, fence) <==> exists i :: 0 <= i < |listed| && FenceOf(listed[i].key) == fence && !listed[i].state.TerminalRejected?
  {
    if Sendable(store, fence) {
      var key :| key in FenceKeys(store, fence) && !store.outbox[key].state.TerminalRejected?;
      var j :| 0 <= j < |listed| && listed[j] == store.outbox[key];
    }
    if i :| 0 <= i < |listed| && FenceOf(listed[i].key) == fence && !listed[i].state.TerminalRejected? {
      assert Stored(listed[i], store.outbox, userId);
      assert listed[i].key in FenceKeys(store, fence);
    }
  }

  /** The state of a flush that has handled these listed records. */
  ghost predicate Progress(before: Tab, current: Tab, sent: nat, hasPending: bool, handled: seq<OutboxRecord>, fence: Fence,
      active: set<Fence>, now: nat, retryDelay: nat, carries: OutboxRecord -> bool)
  {
    var store := before.store;
    var outgoing := Outgoing(handled, fence, store.acknowledgements, now, retryDelay, carries);
    && current.store.acknowledgements == store.acknowledgements
    && current.store.outbox == FlushedKeys(store, KeysOf(handled, fence), now, retryDelay)
    && current.leases == before.leases
    && current.wire == before.wire + outgoing
    && current.timers == (if AnyPut(handled, fence, store, now, retryDelay) then before.timers + active else before.timers)
    && sent == |outgoing|
    && hasPending == AnyPending(handled, fence, store)
  }

  /** What one listed record contributes to the wire. */
  function Dispatch(record: OutboxRecord, acknowledgements: map<OutboxKey, nat>, now: nat, retryDelay: nat,
                    carries: OutboxRecord -> bool): seq<OutboxRecord> {
    if record.key !in acknowledgements && Due(record, now, retryDelay) && carries(Resent(record, now))
    then [Resent(record, now)] else []
  }

  function Outgoing(listed: seq<OutboxRecord>, fence: Fence, acknowledgements: map<OutboxKey, nat>, now: nat,
      retryDelay: nat,
                    carries: OutboxRecord -> bool): seq<OutboxRecord> {
    if listed == [] then []
    else
      var record := listed[|listed| - 1];
      Outgoing(listed[..|listed| - 1], fence, acknowledgements, now, retryDelay, carries)
      + (if FenceOf(record.key) == fence then Dispatch(record, acknowledgements, now, retryDelay, carries) else [])
  }

  function KeysOf(listed: seq<OutboxRecord>, fence: Fence): set<OutboxKey> {
    if listed == [] then {}
    else
      var key := listed[|listed| - 1].key;
      KeysOf(listed[..|listed| - 1], fence) + (if FenceOf(key) == fence then {key} else {})
  }

  function AnyPending(listed: seq<OutboxRecord>, fence: Fence, store: Store): bool {
    if listed == [] then false
    else
      var key := listed[|listed| - 1].key;
      AnyPending(listed[..|listed| - 1], fence, store) || (FenceOf(key) == fence && Pending(store, key))
  }

  function AnyPut(listed: seq<OutboxRecord>, fence: Fence, store: Store, now: nat, retryDelay: nat): bool {
    if listed == [] then false
    else
      var key := listed[|listed| - 1].key;
      AnyPut(listed[..|listed| - 1], fence, store, now, retryDelay) || (FenceOf(key) == fence && IsPut(store, key, now, retryDelay))
  }

  predicate Mentions(listed: seq<OutboxRecord>, key: OutboxKey) {
    exists j :: 0 <= j < |listed| && listed[j].key == key
  }

  lemma {:induction false} PutMembers(listed: seq<OutboxRecord>, fence: Fence, store: Store, now: nat, retryDelay: nat)
    ensures AnyPut(listed, fence, store, now, retryDelay) <==> exists key :: key in KeysOf(listed, fence) && IsPut(store, key, now, retryDelay)
  {
    hide IsPut;
    if listed != [] {
      PutMembers(listed[..|listed| - 1], fence, store, now, retryDelay);
    }
  }

  lemma {:induction false} KeysOfMembers(listed: seq<OutboxRecord>, fence: Fence, store: Store)
    ensures forall key :: key in KeysOf(listed, fence) <==> FenceOf(key) == fence && Mentions(listed, key)
    ensures AnyPending(listed, fence, store) <==> exists key :: key in KeysOf(listed, fence) && Pending(store, key)
  {
    if listed != [] {
      var shorter := listed[..|listed| - 1];
      KeysOfMembers(shorter, fence, store);
      forall key | Mentions(listed, key) && key != listed[|listed| - 1].key
        ensures Mentions(shorter, key)
      {
        var j :| 0 <= j < |listed| && listed[j].key == key;
        assert shorter[j].key == key;
      }
      forall key | Mentions(shorter, key)
        ensures Mentions(listed, key)
      {
        var j :| 0 <= j < |shorter| && shorter[j].key == key;
        assert listed[j].key == key;
      }
    }
  }

  lemma FreshKey(listed: seq<OutboxRecord>, i: nat, fence: Fence, outbox: map<OutboxKey, OutboxRecord>, userId: Id)
    requires i < |listed| && Lists(listed, outbox, userId)
    ensures listed[i].key !in KeysOf(listed[..i], fence)
    ensures listed[i].key in outbox && outbox[listed[i].key] == listed[i]
  {
    assert Stored(listed[i], outbox, userId);
    KeysOfMembers(listed[..i], fence, Store(outbox, map[]));
    forall j | 0 <= j < i ensures listed[..i][j].key != listed[i].key { assert listed[..i][j] == listed[j]; }
  }

  lemma ListedKeys(listed: seq<OutboxRecord>, store: Store, userId: Id, fence: Fence, now: nat, retryDelay: nat)
    requires Keyed(store.outbox) && Lists(listed, store.outbox, userId) && fence.userId == userId
    ensures KeysOf(listed, fence) == FenceKeys(store, fence)
    ensures AnyPending(listed, fence, store) <==> Waiting(store, fence)
    ensures AnyPut(listed, fence, store, now, retryDelay) <==> Puts(store, fence, now, retryDelay)
  {
    hide IsPut;
    KeysOfMembers(listed, fence, store);
    PutMembers(listed, fence, store, now, retryDelay);
    forall key | key in KeysOf(listed, fence) ensures key in FenceKeys(store, fence) {
      var j :| 0 <= j < |listed| && listed[j].key == key;
      assert Stored(listed[j], store.outbox, userId);
    }
    forall key | key in FenceKeys(store, fence) ensures key in KeysOf(listed, fence) {
      var j :| 0 <= j < |listed| && listed[j] == store.outbox[key];
      assert Mentions(listed, key);
    }
  }

  function Enqueued(record: OutboxRecord, terminal: map<Fence, TerminalReason>, now: nat): OutboxRecord {
    if FenceOf(record.key) in terminal then
      record.(state := TerminalRejected, terminalReason := Some(terminal[FenceOf(record.key)]),
              terminalRejectedAt := Some(now), updatedAt := now)
    else record
  }

  /** The record is stored as it is, or behind a rejected fence as a draft for that fence's reason; nothing else changed. */
  predicate QueuedAs(before: Store, after: Store, record: OutboxRecord, terminal: map<Fence, TerminalReason>, now: nat) {
    && after.acknowledgements == before.acknowledgements && after.outbox - {record.key} == before.outbox - {record.key}
    && record.key in after.outbox
    && (if FenceOf(record.key) in terminal
        then IsDraftOf(after.outbox[record.key], record.(terminalRejectedAt := None), terminal[FenceOf(record.key)], now)
        else after.outbox[record.key] == record)
  }

  lemma QueuedTerms(store: Store, record: OutboxRecord, terminal: map<Fence, TerminalReason>, now: nat)
    ensures QueuedAs(store, PutOutbox(store, Enqueued(record, terminal, now)), record, terminal, now)
  {
  }

  /** Neither a draft nor acknowledged. */
  predicate Pending(store: Store, key: OutboxKey) {
    key in store.outbox && !store.outbox[key].state.TerminalRejected? && key !in store.acknowledgements
  }

  predicate Sendable(store: Store, fence: Fence) {
    exists key :: key in FenceKeys(store, fence) && !store.outbox[key].state.TerminalRejected?
  }

  predicate Waiting(store: Store, fence: Fence) {
    exists key :: key in FenceKeys(store, fence) && Pending(store, key)
  }

  /** Due and not acknowledged: the flush writes the record as sending before it sends it. */
  predicate IsPut(store: Store, key: OutboxKey, now: nat, retryDelay: nat) {
    Pending(store, key) && Due(store.outbox[key], now, retryDelay)
  }

  predicate Puts(store: Store, fence: Fence, now: nat, retryDelay: nat) {
    exists key :: key in FenceKeys(store, fence) && IsPut(store, key, now, retryDelay)
  }
}
