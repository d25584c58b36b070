/**
 When a queued edit goes on the wire, said on the records alone: a flush offers exactly what is
 queued, or was sent and not acknowledged in time, each once and oldest first; a lost frame is
 offered again.
 */
module OutboxRetries {
  import opened Basics
  import opened SectionHistory
  import opened OutboxStore
  import opened Outbox
  import opened OutboxDelivery
  import opened OutboxRefinement
  import HistoryMeaning

  /** What a flush hands to the transport for a record. */
  function AsSending(r: OutboxRecord, now: nat): OutboxRecord {
    OutboxRecord(r.key, r.header, r.payload, Sending, r.attempts + 1, r.terminalReason, r.terminalRejectedAt, r.createdAt, now)
  }

  /** Queued, or sent with the retry delay gone by; and not acknowledged. */
  predicate Offerable(store: Store, key: OutboxKey, now: nat, retryDelay: nat) {
    && key in store.outbox && key !in store.acknowledgements
    && (|| store.outbox[key].state == Queued
        || (store.outbox[key].state == Sending && store.outbox[key].updatedAt + retryDelay <= now))
  }

  /** Nobody else holds the lease. */
  predicate LeaseIsFree(leases: map<Fence, Lease>, fence: Fence, ownerId: Id, now: nat) {
    fence in leases && leases[fence].ownerId != ownerId ==> leases[fence].expiresAt <= now
  }

  ghost predicate OfferedOnce(out: seq<OutboxRecord>) {
    forall i, j :: 0 <= i < j < |out| ==> out[i].key != out[j].key && out[i].createdAt <= out[j].createdAt
  }

  /** On the wire is exactly what could be offered and the transport carried. */
  ghost predicate Offers(out: seq<OutboxRecord>, store: Store, fence: Fence, now: nat, retryDelay: nat, carries: OutboxRecord -> bool) {
    && OfferedOnce(out)
    && (forall key :: key in store.outbox && FenceOf(key) == fence ==>
          (AsSending(store.outbox[key], now) in out <==> Offerable(store, key, now, retryDelay) && carries(AsSending(store.outbox[key], now))))
    && (forall i :: 0 <= i < |out| ==>
          out[i].key in store.outbox && FenceOf(out[i].key) == fence && out[i] == AsSending(store.outbox[out[i].key], now))
  }

  /** Neither a draft nor acknowledged. */
  predicate Unsettled(store: Store, fence: Fence, key: OutboxKey) {
    key in store.outbox && FenceOf(key) == fence && store.outbox[key].state != TerminalRejected && key !in store.acknowledgements
  }

  /** What becomes of a record in a flush of its fence. */
  ghost predicate RecordAfter(before: Store, after: Store, key: OutboxKey, now: nat, retryDelay: nat)
    requires key in before.outbox
  {
    var r := before.outbox[key];
    if r.state == TerminalRejected then key in after.outbox && after.outbox[key] == r
    else if key in before.acknowledgements then key !in after.outbox
    else if Offerable(before, key, now, retryDelay) then key in after.outbox && after.outbox[key] == AsSending(r, now)
    else key in after.outbox && after.outbox[key] == r
  }

  lemma {:induction false} OutgoingOffers(listed: seq<OutboxRecord>, store: Store, userId: Id, fence: Fence, now: nat, retryDelay: nat,
      carries: OutboxRecord -> bool)
    requires forall i :: 0 <= i < |listed| ==> Stored(listed[i], store.outbox, userId)
    requires OldestFirst(listed)
    ensures var out := Outgoing(listed, fence, store.acknowledgements, now, retryDelay, carries);
      && OfferedOnce(out)
      && (forall r :: r in out <==> Offered(r, listed, store, fence, now, retryDelay, carries))
      && (forall i :: 0 <= i < |out| ==> Mentions(listed, out[i].key) && Listed(listed, out[i]))
  {
    if listed != [] {
      var init, last := listed[..|listed| - 1], listed[|listed| - 1];
      OutgoingOffers(init, store, userId, fence, now, retryDelay, carries);
      assert Stored(last, store.outbox, userId);
      var more := if FenceOf(last.key) == fence then Dispatch(last, store.acknowledgements, now, retryDelay, carries) else [];
      DispatchOffers(last, store, userId, now, retryDelay, carries);
      ExtendOffers(listed, Outgoing(init, fence, store.acknowledgements, now, retryDelay, carries), more, store, userId, fence, now, retryDelay,
                   carries);
    }
  }

  /** A listed record that could be offered, as it is sent. */
  ghost predicate Offered(r: OutboxRecord, listed: seq<OutboxRecord>, store: Store, fence: Fence, now: nat, retryDelay: nat,
      carries: OutboxRecord -> bool)
  {
    exists i :: 0 <= i < |listed| && OfferedAs(r, listed[i], store, fence, now, retryDelay, carries)
  }

  predicate OfferedAs(r: OutboxRecord, record: OutboxRecord, store: Store, fence: Fence, now: nat, retryDelay: nat,
      carries: OutboxRecord -> bool)
  {
    r == AsSending(record, now) && FenceOf(record.key) == fence && Offerable(store, record.key, now, retryDelay) && carries(r)
  }

  /** As old as a listed record of its key. */
  ghost predicate Listed(listed: seq<OutboxRecord>, r: OutboxRecord) {
    exists i :: 0 <= i < |listed| && listed[i].key == r.key && listed[i].createdAt == r.createdAt
  }

  lemma DispatchOffers(record: OutboxRecord, store: Store, userId: Id, now: nat, retryDelay: nat, carries: OutboxRecord -> bool)
    requires Stored(record, store.outbox, userId)
    ensures Dispatch(record, store.acknowledgements, now, retryDelay, carries)
      == if Offerable(store, record.key, now, retryDelay) && carries(AsSending(record, now)) then [AsSending(record, now)] else []
  {
  }

  lemma ExtendOffers(listed: seq<OutboxRecord>, out: seq<OutboxRecord>, more: seq<OutboxRecord>, store: Store, userId: Id, fence: Fence,
      now: nat, retryDelay: nat, carries: OutboxRecord -> bool)
    requires listed != [] && OldestFirst(listed)
    requires var last := listed[|listed| - 1];
      more == if FenceOf(last.key) == fence && Offerable(store, last.key, now, retryDelay) && carries(AsSending(last, now))
              then [AsSending(last, now)] else []
    requires var init := listed[..|listed| - 1];
      && OfferedOnce(out)
      && (forall r :: r in out <==> Offered(r, init, store, fence, now, retryDelay, carries))
      && (forall i :: 0 <= i < |out| ==> Mentions(init, out[i].key) && Listed(init, out[i]))
    ensures OfferedOnce(out + more)
    ensures forall r :: r in out + more <==> Offered(r, listed, store, fence, now, retryDelay, carries)
    ensures forall i :: 0 <= i < |out + more| ==> Mentions(listed, (out + more)[i].key) && Listed(listed, (out + more)[i])
  {
    hide OfferedAs, Offerable;
    var init, last := listed[..|listed| - 1], listed[|listed| - 1];
    forall r ensures r in out + more <==> Offered(r, listed, store, fence, now, retryDelay, carries) {
      OfferedGrows(r, listed, store, fence, now, retryDelay, carries);
      assert r in more <==> OfferedAs(r, last, store, fence, now, retryDelay, carries) by { LastOffered(r, last, more, store, fence, now, retryDelay, carries); }
    }
    forall i | 0 <= i < |out| ensures out[i].key != last.key && out[i].createdAt <= last.createdAt {
      OlderThanLast(listed, out[i]);
    }
    forall i | 0 <= i < |out + more| ensures Mentions(listed, (out + more)[i].key) && Listed(listed, (out + more)[i]) {
      if i < |out| {
        ListedGrows(listed, out[i]);
      } else {
        assert listed[|listed| - 1].key == (out + more)[i].key;
      }
    }
  }

  lemma LastOffered(r: OutboxRecord, last: OutboxRecord, more: seq<OutboxRecord>, store: Store, fence: Fence, now: nat, retryDelay: nat,
      carries: OutboxRecord -> bool)
    requires more == if FenceOf(last.key) == fence && Offerable(store, last.key, now, retryDelay) && carries(AsSending(last, now))
                     then [AsSending(last, now)] else []
    ensures r in more <==> OfferedAs(r, last, store, fence, now, retryDelay, carries)
  {
  }

  lemma OfferedGrows(r: OutboxRecord, listed: seq<OutboxRecord>, store: Store, fence: Fence, now: nat, retryDelay: nat,
      carries: OutboxRecord -> bool)
    requires listed != []
    ensures Offered(r, listed, store, fence, now, retryDelay, carries)
      <==> (Offered(r, listed[..|listed| - 1], store, fence, now, retryDelay, carries)
            || OfferedAs(r, listed[|listed| - 1], store, fence, now, retryDelay, carries))
  {
    hide OfferedAs;
    var init := listed[..|listed| - 1];
    if i :| 0 <= i < |init| && OfferedAs(r, init[i], store, fence, now, retryDelay, carries) {
      assert listed[i] == init[i];
    }
    if i :| 0 <= i < |listed| && OfferedAs(r, listed[i], store, fence, now, retryDelay, carries) {
      assert i < |init| ==> init[i] == listed[i];
    }
  }

  lemma OlderThanLast(listed: seq<OutboxRecord>, r: OutboxRecord)
    requires listed != [] && OldestFirst(listed) && Listed(listed[..|listed| - 1], r)
    ensures r.key != listed[|listed| - 1].key && r.createdAt <= listed[|listed| - 1].createdAt
  {
    var init := listed[..|listed| - 1];
    var i :| 0 <= i < |init| && init[i].key == r.key && init[i].createdAt == r.createdAt;
    assert listed[i] == init[i];
  }

  lemma ListedGrows(listed: seq<OutboxRecord>, r: OutboxRecord)
    requires listed != [] && Listed(listed[..|listed| - 1], r)
    ensures Listed(listed, r) && Mentions(listed, r.key)
  {
    var init := listed[..|listed| - 1];
    var i :| 0 <= i < |init| && init[i].key == r.key && init[i].createdAt == r.createdAt;
    assert listed[i].key == r.key;
  }

  lemma WholeListingOffers(listed: seq<OutboxRecord>, store: Store, fence: Fence, now: nat, retryDelay: nat, carries: OutboxRecord -> bool)
    requires Keyed(store.outbox) && Lists(listed, store.outbox, fence.userId)
    ensures Offers(Outgoing(listed, fence, store.acknowledgements, now, retryDelay, carries), store, fence, now, retryDelay, carries)
  {
    hide Offerable, Outgoing;
    OutgoingOffers(listed, store, fence.userId, fence, now, retryDelay, carries);
    var out := Outgoing(listed, fence, store.acknowledgements, now, retryDelay, carries);
    forall key | key in store.outbox && FenceOf(key) == fence
      ensures AsSending(store.outbox[key], now) in out <==> Offerable(store, key, now, retryDelay) && carries(AsSending(store.outbox[key], now))
    {
      var record := store.outbox[key];
      var j :| 0 <= j < |listed| && listed[j] == record;
      if Offerable(store, key, now, retryDelay) && carries(AsSending(record, now)) {
        assert OfferedAs(AsSending(record, now), listed[j], store, fence, now, retryDelay, carries);
      }
      if AsSending(record, now) in out {
        var i :| 0 <= i < |listed| && OfferedAs(AsSending(record, now), listed[i], store, fence, now, retryDelay, carries);
        assert listed[i].key == key;
      }
    }
    forall i | 0 <= i < |out| ensures out[i].key in store.outbox && FenceOf(out[i].key) == fence && out[i] == AsSending(store.outbox[out[i].key], now) {
      assert out[i] in out;
      var j :| 0 <= j < |listed| && OfferedAs(out[i], listed[j], store, fence, now, retryDelay, carries);
      assert Stored(listed[j], store.outbox, fence.userId);
    }
  }

  /**
   A flush of an open, connected, active fence that gets the lease puts a record on the wire, when
   the transport carries it, if and only if it is not acknowledged and is queued, or was sent and
   the retry delay is over; each such record exactly once, oldest first.
   */
  lemma FlushOffersIff(before: Tab, after: Tab, sent: nat, fence: Fence, active: set<Fence>, ownerId: Id, now: nat, retryDelay: nat,
      leaseDuration: nat, carries: OutboxRecord -> bool)
    requires FlushEnds(before, after, sent, fence, true, active, ownerId, now, retryDelay, leaseDuration, carries)
    requires fence in active && LeaseIsFree(before.leases, fence, ownerId, now) && Keyed(before.store.outbox)
    ensures before.wire <= after.wire && sent == |after.wire| - |before.wire|
    ensures Offers(after.wire[|before.wire|..], before.store, fence, now, retryDelay, carries)
  {
    hide Offers, FlushedKeys, Outgoing, Waiting, Puts, SentInOrder;
    if Sendable(before.store, fence) {
      var listed :| SentInOrder(listed, before.store, before.wire, after.wire, sent, fence, now, retryDelay, carries);
      SentIsOutgoing(listed, before.store, before.wire, after.wire, sent, fence, now, retryDelay, carries);
      WholeListingOffers(listed, before.store, fence, now, retryDelay, carries);
    } else {
      NothingToOffer(before.store, fence, now, retryDelay, carries);
      assert after.wire[|before.wire|..] == [];
    }
  }

  lemma SentIsOutgoing(listed: seq<OutboxRecord>, store: Store, wireBefore: seq<OutboxRecord>, wire: seq<OutboxRecord>, sent: nat,
      fence: Fence, now: nat, retryDelay: nat, carries: OutboxRecord -> bool)
    requires SentInOrder(listed, store, wireBefore, wire, sent, fence, now, retryDelay, carries)
    ensures Lists(listed, store.outbox, fence.userId) && wireBefore <= wire && sent == |wire| - |wireBefore|
    ensures wire[|wireBefore|..] == Outgoing(listed, fence, store.acknowledgements, now, retryDelay, carries)
  {
  }

  lemma NothingToOffer(store: Store, fence: Fence, now: nat, retryDelay: nat, carries: OutboxRecord -> bool)
    requires !Sendable(store, fence)
    ensures Offers([], store, fence, now, retryDelay, carries)
  {
    forall key | key in store.outbox && FenceOf(key) == fence ensures store.outbox[key].state.TerminalRejected? {
      assert key in FenceKeys(store, fence);
    }
  }

  /** What such a flush leaves of each record, of the other fences, of the fence's retry timer and of the leases. */
  lemma FlushLeaves(before: Tab, after: Tab, sent: nat, fence: Fence, active: set<Fence>, ownerId: Id, now: nat, retryDelay: nat,
      leaseDuration: nat, carries: OutboxRecord -> bool)
    requires FlushEnds(before, after, sent, fence, true, active, ownerId, now, retryDelay, leaseDuration, carries)
    requires fence in active && LeaseIsFree(before.leases, fence, ownerId, now) && Keyed(before.store.outbox)
    ensures forall key :: key in before.store.outbox && FenceOf(key) == fence ==> RecordAfter(before.store, after.store, key, now, retryDelay)
    ensures forall key :: key in after.store.outbox ==> key in before.store.outbox
    ensures forall key :: key in before.store.outbox && FenceOf(key) != fence ==> key in after.store.outbox && after.store.outbox[key] == before.store.outbox[key]
    ensures fence in after.timers <==> exists key :: Unsettled(before.store, fence, key)
    ensures after.store.acknowledgements == before.store.acknowledgements
    ensures if exists key :: Held(before.store, fence, key)
      then after.leases == before.leases[fence := Lease(ownerId, now + leaseDuration)]
      else after.leases == before.leases && after.wire == before.wire && sent == 0
  {
    hide SentInOrder, Puts, Offerable;
    SomeHeld(before.store, fence);
    if Sendable(before.store, fence) {
      forall key | key in before.store.outbox && FenceOf(key) == fence ensures RecordAfter(before.store, after.store, key, now, retryDelay) {
        HandledRecord(before.store, key, now, retryDelay);
      }
      WaitingRecord(before.store, fence);
    } else {
      forall key | key in before.store.outbox && FenceOf(key) == fence ensures before.store.outbox[key].state == TerminalRejected {
        assert key in FenceKeys(before.store, fence);
      }
    }
  }

  /** A flush that is closed, disconnected or of an inactive fence does nothing; one that finds the lease taken only arms a retry. */
  lemma FlushHoldsBack(before: Tab, after: Tab, sent: nat, fence: Fence, open: bool, active: set<Fence>, ownerId: Id, now: nat, retryDelay: nat,
      leaseDuration: nat, carries: OutboxRecord -> bool)
    requires FlushEnds(before, after, sent, fence, open, active, ownerId, now, retryDelay, leaseDuration, carries)
    ensures !open || fence !in active ==> after == before && sent == 0
    ensures open && fence in active && !LeaseIsFree(before.leases, fence, ownerId, now) ==>
      && sent == 0 && after == before.(timers := after.timers) && after.timers - {fence} == before.timers - {fence}
      && (fence in after.timers <==> exists key :: Held(before.store, fence, key))
  {
    hide FlushDid;
    SomeHeld(before.store, fence);
  }

  lemma SomeHeld(store: Store, fence: Fence)
    ensures Sendable(store, fence) <==> exists key :: Held(store, fence, key)
  {
    if key :| Held(store, fence, key) {
      assert key in FenceKeys(store, fence);
    }
    if key :| key in FenceKeys(store, fence) && !store.outbox[key].state.TerminalRejected? {
      assert Held(store, fence, key);
    }
  }

  /** A record of the fence that is no draft. */
  predicate Held(store: Store, fence: Fence, key: OutboxKey) {
    key in store.outbox && FenceOf(key) == fence && store.outbox[key].state != TerminalRejected
  }

  lemma HandledRecord(store: Store, key: OutboxKey, now: nat, retryDelay: nat)
    requires key in store.outbox && Keyed(store.outbox)
    ensures Flushed(store.outbox[key], key in store.acknowledgements, now, retryDelay)
      == if store.outbox[key].state == TerminalRejected then Some(store.outbox[key])
         else if key in store.acknowledgements then None
         else if Offerable(store, key, now, retryDelay) then Some(AsSending(store.outbox[key], now))
         else Some(store.outbox[key])
  {
  }

  lemma WaitingRecord(store: Store, fence: Fence)
    ensures Waiting(store, fence) <==> exists key :: Unsettled(store, fence, key)
  {
    if key :| Unsettled(store, fence, key) {
      assert key in FenceKeys(store, fence) && Pending(store, key);
    }
    if key :| key in FenceKeys(store, fence) && Pending(store, key) {
      assert Unsettled(store, fence, key);
    }
  }

  // ----- lost frames -----

  /**
   A record was sent, its frame lost and no acknowledgement stored: the flush whose delay has gone by
   is a run of the delivery machine that puts the frame back on the wire, from where it can be
   delivered, and leaves the record waiting for the next retry.
   */
  lemma LostFrameIsOfferedAgain(w: World, all: seq<OutboxRecord>, key: OutboxKey, now: nat, retryDelay: nat, carries: OutboxRecord -> bool)
    requires OutboxDelivery.Inv(w) && Lists(all, w.store.outbox, key.userId) && (set i | 0 <= i < |all| :: all[i]) <= w.listed
    requires key in w.store.outbox && key !in w.store.acknowledgements && key.updateId !in w.frames
    requires w.store.outbox[key].state == Sending && w.store.outbox[key].updatedAt + retryDelay <= now
    requires carries(AsSending(w.store.outbox[key], now))
    ensures var steps := FlushSteps(all, FenceOf(key), w.store.acknowledgements, now, retryDelay, carries);
      && EnabledRun(w, steps)
      && key.updateId in Run(w, steps).frames
      && (forall session, access :: Enabled(Run(w, steps), Deliver(key.updateId, session, access)))
      && key in Run(w, steps).store.outbox && Run(w, steps).store.outbox[key] == AsSending(w.store.outbox[key], now)
  {
    hide EnabledRun, Run, FlushSteps, OutboxDelivery.Inv, Lists, Offerable, Mirrors, Outgoing, FrameIds;
    var fence := FenceOf(key);
    assert all[..|all|] == all;
    InvIsKeyed(w, key);
    FlushIsARun(w, w.store, all, |all|, key.userId, fence, now, retryDelay, carries);
    var steps := FlushSteps(all, fence, w.store.acknowledgements, now, retryDelay, carries);
    OverdueGoesOut(w.store, all, key, now, retryDelay, carries);
    OverdueIsRewritten(Run(w, steps), w.store, all, key, now, retryDelay);
    RegistryStays(w, steps, key.updateId);
  }

  lemma InvIsKeyed(w: World, key: OutboxKey)
    requires OutboxDelivery.Inv(w) && key in w.store.outbox
    ensures Keyed(w.store.outbox) && key.updateId in w.registry
  {
    hide RowsOk, AcksOk, NothingLost, CheckpointsReady;
    assert RecordOk(w.registry, w.store.outbox[key]);
  }

  lemma OverdueGoesOut(store: Store, all: seq<OutboxRecord>, key: OutboxKey, now: nat, retryDelay: nat, carries: OutboxRecord -> bool)
    requires Keyed(store.outbox) && Lists(all, store.outbox, key.userId)
    requires key in store.outbox && key !in store.acknowledgements
    requires store.outbox[key].state == Sending && store.outbox[key].updatedAt + retryDelay <= now && carries(AsSending(store.outbox[key], now))
    ensures key.updateId in FrameIds(Outgoing(all, FenceOf(key), store.acknowledgements, now, retryDelay, carries))
  {
    hide Outgoing, Lists;
    WholeListingOffers(all, store, FenceOf(key), now, retryDelay, carries);
    var out := Outgoing(all, FenceOf(key), store.acknowledgements, now, retryDelay, carries);
    assert AsSending(store.outbox[key], now) in out;
    var i :| 0 <= i < |out| && out[i] == AsSending(store.outbox[key], now);
    assert out[i].key.updateId in FrameIds(out);
  }

  lemma OverdueIsRewritten(w: World, store: Store, all: seq<OutboxRecord>, key: OutboxKey, now: nat, retryDelay: nat)
    requires Keyed(store.outbox) && Lists(all, store.outbox, key.userId)
    requires key in store.outbox && key !in store.acknowledgements
    requires store.outbox[key].state == Sending && store.outbox[key].updatedAt + retryDelay <= now
    requires Mirrors(w, store, set i | 0 <= i < |all| :: all[i], KeysOf(all, FenceOf(key)), now, retryDelay)
    ensures key in w.store.outbox && w.store.outbox[key] == AsSending(store.outbox[key], now)
  {
    hide Lists, KeysOf;
    HandledInListing(store, all, key, FenceOf(key));
    HandledRecord(store, key, now, retryDelay);
  }

  lemma HandledInListing(store: Store, all: seq<OutboxRecord>, key: OutboxKey, fence: Fence)
    requires key in store.outbox && FenceOf(key) == fence && Lists(all, store.outbox, key.userId)
    requires Keyed(store.outbox)
    ensures key in KeysOf(all, fence)
  {
    KeysOfMembers(all, fence, store);
    var j :| 0 <= j < |all| && all[j] == store.outbox[key];
    assert all[j].key == key;
  }

  lemma {:induction false} RegistryStays(w: World, steps: seq<Step>, id: Id)
    requires EnabledRun(w, steps) && OutboxDelivery.Inv(w)
    requires id in w.registry
    ensures id in Run(w, steps).registry
    decreases |steps|
  {
    if steps != [] {
      StepKeepsInv(w, steps[0]);
      RegistryStays(Next(w, steps[0]), steps[1..], id);
    }
  }

  // ----- frames that arrive -----

  /** What the server says to a frame: a sequence for what it holds, a reason for what it refuses, nothing while a rotation is pending. */
  lemma ReplyTerms(header: Header, outcome: Outcome, m: Message)
    ensures m in ReplyTo(header, outcome) <==>
      && m.updateId == header.updateId && m.sectionId == header.sectionId
      && match m
         case Ack(_, _, epoch, sequence) =>
           epoch == header.expectedKeyEpoch && (outcome == Inserted(sequence) || outcome == AlreadyPresent(sequence))
         case Reject(_, _, ForbiddenDraft) => outcome == Rejected(Forbidden)
         case Reject(_, _, StaleEpochDraft) => outcome == Rejected(StaleEpoch)
  {
  }

  /** A frame of the queue that the server may take is answered with a sequence, whether it came before or not. */
  lemma TakenFrameIsAnswered(w: World, key: OutboxKey, session: bool, access: Option<Access>)
    requires OutboxDelivery.Inv(w) && key in w.store.outbox && key.updateId in w.registry
    requires MayWrite(session, access, w.registry[key.updateId].header) && SectionTakes(w.h.log.sections, w.registry[key.updateId].header)
    ensures !Persisted(w.h.log, session, access, w.registry[key.updateId].header, w.registry[key.updateId].payload).1.Rejected?
    ensures w.registry[key.updateId].header.updateId == key.updateId && w.registry[key.updateId].header == w.store.outbox[key].header
    ensures key == KeyOf(key.userId, w.registry[key.updateId].header)
  {
    hide Persisted, CheckpointsReady, NothingLost, AcksOk;
    assert RecordOk(w.registry, w.store.outbox[key]);
    var update := w.registry[key.updateId];
    PersistedInserts(w.h.log, session, access, update.header, update.payload);
    if key.updateId in w.h.log.updates {
      assert w.h.log.updates[key.updateId] in w.h.accepted;
      var i :| 0 <= i < |w.h.accepted| && w.h.accepted[i] == w.h.log.updates[key.updateId];
      assert RowOk(w.registry, w.h.accepted[i]);
    }
  }

  /** Delivery, the acknowledgement, and the two transactions that clear the record. */
  function Settling(key: OutboxKey, session: bool, access: Option<Access>, sequence: nat): seq<Step> {
    [Deliver(key.updateId, session, access), ReceiveAck(Ack(key.updateId, key.sectionId, key.keyEpoch, sequence), key),
     WriteAck(key, sequence), DropRecord(key)]
  }

  /**
   A frame of a queued edit that arrives while its author may write settles: the run of its delivery
   and acknowledgement is possible, and leaves the update accepted and the record gone.
   */
  lemma ArrivedFrameSettles(w: World, key: OutboxKey, session: bool, access: Option<Access>) returns (sequence: nat)
    requires OutboxDelivery.Inv(w) && key in w.store.outbox && key.userId == w.userId && w.store.outbox[key].state != TerminalRejected
    requires key.updateId in w.registry && key.updateId in w.frames
    requires MayWrite(session, access, w.registry[key.updateId].header) && SectionTakes(w.h.log.sections, w.registry[key.updateId].header)
    ensures EnabledRun(w, Settling(key, session, access, sequence))
    ensures var last := Run(w, Settling(key, session, access, sequence));
      && AcceptedAt(last.h, key.updateId, sequence) && key !in last.store.outbox
      && key in last.store.acknowledgements && last.store.acknowledgements[key] == sequence
      && (forall other :: other in w.store.outbox && other != key ==> other in last.store.outbox && last.store.outbox[other] == w.store.outbox[other])
  {
    hide Persisted, OutboxDelivery.Inv, MayWrite, SectionTakes, AcceptedAt, HistoryMeaning.Apply;
    TakenFrameIsAnswered(w, key, session, access);
    var update := w.registry[key.updateId];
    sequence := Persisted(w.h.log, session, access, update.header, update.payload).1.serverSequence;
    InvIsValid(w);
    ReplyIsTrue(w.h, session, access, update.header, update.payload);
    var steps := Settling(key, session, access, sequence);
    ReplyTerms(update.header, Persisted(w.h.log, session, access, update.header, update.payload).1, steps[1].message);
    var a := Next(w, steps[0]);
    var b := Next(a, steps[1]);
    var c := Next(b, steps[2]);
    FourSteps(w, steps);
  }

  /** Delivery and the rejection that comes back. */
  function Refusing(key: OutboxKey, session: bool, access: Option<Access>, reason: TerminalReason, now: nat): seq<Step> {
    [Deliver(key.updateId, session, access), ReceiveReject(Reject(key.updateId, key.sectionId, reason), key, now)]
  }

  /** The author is still a live member, no rotation is pending, and the note has moved to another epoch. */
  predicate EpochMoved(session: bool, access: Option<Access>, header: Header) {
    && session && access.Some? && access.value.status == Active && !access.value.isDeleted && !access.value.rotationFenced
    && access.value.keyEpoch != header.expectedKeyEpoch
  }

  /**
   A frame that arrives after the note's key was rotated is refused, and the run of its refusal turns
   its record, with every other of its fence, into a draft that keeps the edit as it was sealed.
   */
  lemma OutdatedFrameIsKept(w: World, key: OutboxKey, session: bool, access: Option<Access>, now: nat)
    requires OutboxDelivery.Inv(w) && key in w.store.outbox && key.userId == w.userId
    requires key.updateId in w.registry && key.updateId in w.frames
    requires EpochMoved(session, access, w.registry[key.updateId].header)
    ensures EnabledRun(w, Refusing(key, session, access, StaleEpochDraft, now))
    ensures var last := Run(w, Refusing(key, session, access, StaleEpochDraft, now));
      && last.h == w.h && FencePreserved(w.store, last.store, FenceOf(key), StaleEpochDraft, now)
      && key in last.store.outbox && IsDraftOf(last.store.outbox[key], w.store.outbox[key], StaleEpochDraft, now)
      && FenceOf(key) in last.terminal && last.terminal[FenceOf(key)] == StaleEpochDraft
  {
    hide OutboxDelivery.Inv, PreserveFence, FencePreserved, IsDraftOf, Run, EnabledRun;
    InvMatches(w, key);
    var update := w.registry[key.updateId];
    var steps := Refusing(key, session, access, StaleEpochDraft, now);
    ReplyTerms(update.header, Persisted(w.h.log, session, access, update.header, update.payload).1, steps[1].message);
    PreservingTerms(w.store, FenceOf(key), StaleEpochDraft, now);
    TwoSteps(w, steps);
    DraftOfKey(w.store, Run(w, steps).store, key, StaleEpochDraft, now);
  }

  lemma DraftOfKey(before: Store, after: Store, key: OutboxKey, reason: TerminalReason, now: nat)
    requires FencePreserved(before, after, FenceOf(key), reason, now) && key in before.outbox
    ensures key in after.outbox && IsDraftOf(after.outbox[key], before.outbox[key], reason, now)
  {
  }

  lemma InvMatches(w: World, key: OutboxKey)
    requires OutboxDelivery.Inv(w) && key in w.store.outbox && key.updateId in w.registry
    ensures key == KeyOf(key.userId, w.registry[key.updateId].header)
  {
    hide RowsOk, AcksOk, NothingLost, CheckpointsReady;
    assert RecordOk(w.registry, w.store.outbox[key]);
  }

  lemma TwoSteps(w: World, steps: seq<Step>)
    requires |steps| == 2 && (steps[0].Deliver? ==> steps[0].updateId in w.registry)
    requires Enabled(w, steps[0]) && Enabled(Next(w, steps[0]), steps[1]) && !steps[1].Deliver?
    ensures EnabledRun(w, steps)
    ensures Run(w, steps) == Next(Next(w, steps[0]), steps[1])
  {
    hide Enabled, Next;
    var a := Next(w, steps[0]);
    var b := Next(a, steps[1]);
    assert steps[1..][1..] == [];
    assert EnabledRun(b, []) && Run(b, []) == b;
    assert EnabledRun(a, steps[1..]) && Run(a, steps[1..]) == b;
  }

  lemma InvIsValid(w: World)
    requires OutboxDelivery.Inv(w)
    ensures HistoryMeaning.Valid(w.h)
  {
  }

  lemma FourSteps(w: World, steps: seq<Step>)
    requires |steps| == 4 && (steps[0].Deliver? ==> steps[0].updateId in w.registry)
    requires Enabled(w, steps[0]) && Enabled(Next(w, steps[0]), steps[1])
    requires !steps[1].Deliver? && !steps[2].Deliver? && !steps[3].Deliver?
    requires Enabled(Next(Next(w, steps[0]), steps[1]), steps[2])
    requires Enabled(Next(Next(Next(w, steps[0]), steps[1]), steps[2]), steps[3])
    ensures EnabledRun(w, steps)
    ensures Run(w, steps) == Next(Next(Next(Next(w, steps[0]), steps[1]), steps[2]), steps[3])
  {
    hide Enabled, Next;
    var a := Next(w, steps[0]);
    var b := Next(a, steps[1]);
    var c := Next(b, steps[2]);
    var d := Next(c, steps[3]);
    assert steps[1..][1..] == steps[2..] && steps[2..][1..] == steps[3..] && steps[3..][1..] == [];
    assert EnabledRun(d, []) && Run(d, []) == d;
    assert EnabledRun(c, steps[3..]) && Run(c, steps[3..]) == d;
    assert EnabledRun(b, steps[2..]) && Run(b, steps[2..]) == d;
    assert EnabledRun(a, steps[1..]) && Run(a, steps[1..]) == d;
  }
}
