/**
 The browser's durable stores behind the encrypted outbox: one step per IndexedDB transaction.
 */
module OutboxStore {
  import opened Basics
  import opened SectionHistory

  datatype OutboxKey = OutboxKey(userId: Id, noteId: Id, sectionId: SectionRef, keyEpoch: nat, updateId: Id)

  datatype Fence = Fence(userId: Id, noteId: Id, sectionId: SectionRef, keyEpoch: nat)

  datatype RecordState = Queued | Sending | TerminalRejected

  datatype TerminalReason = ForbiddenDraft | StaleEpochDraft

  datatype OutboxRecord = OutboxRecord(
    key: OutboxKey,
    header: Header,
    payload: Payload,
    state: RecordState,
    attempts: nat,
    terminalReason: Option<TerminalReason>,
    terminalRejectedAt: Option<nat>,
    createdAt: nat,
    updatedAt: nat)

  datatype Store = Store(outbox: map<OutboxKey, OutboxRecord>, acknowledgements: map<OutboxKey, nat>)

  datatype Lease = Lease(ownerId: Id, expiresAt: nat)

  function FenceOf(key: OutboxKey): Fence { Fence(key.userId, key.noteId, key.sectionId, key.keyEpoch) }

  // ----- one function per transaction -----

  function PutOutbox(store: Store, record: OutboxRecord): Store {
    store.(outbox := store.outbox[record.key := record])
  }

  /** The first transaction of acknowledgeOutbox. */
  function PutAcknowledgement(store: Store, key: OutboxKey, serverSequence: nat): Store {
    store.(acknowledgements := store.acknowledgements[key := serverSequence])
  }

  /** The second: drop the record unless it has become a recoverable draft. */
  function DropAcknowledged(store: Store, key: OutboxKey): Store {
    if key in store.outbox && store.outbox[key].state.TerminalRejected? then store
    else store.(outbox := store.outbox - {key})
  }

  function AsDraft(record: OutboxRecord, reason: TerminalReason, rejectedAt: nat): OutboxRecord {
    record.(state := TerminalRejected,
            terminalReason := Some(reason),
            terminalRejectedAt := if record.terminalRejectedAt.Some? then record.terminalRejectedAt else Some(rejectedAt),
            updatedAt := rejectedAt)
  }

  function PreserveFence(store: Store, fence: Fence, reason: TerminalReason, rejectedAt: nat): Store {
    store.(outbox := map key | key in store.outbox ::
      if FenceOf(key) == fence then AsDraft(store.outbox[key], reason, rejectedAt) else store.outbox[key])
  }

  function DeleteFence(store: Store, fence: Fence): Store {
    store.(outbox := map key | key in store.outbox && FenceOf(key) != fence :: store.outbox[key])
  }

  function ClearAccount(store: Store, userId: Id): Store {
    Store(map key | key in store.outbox && key.userId != userId :: store.outbox[key],
          map key | key in store.acknowledgements && key.userId != userId :: store.acknowledgements[key])
  }

  predicate MayLease(leases: map<Fence, Lease>, scope: Fence, ownerId: Id, now: nat) {
    scope in leases ==> leases[scope].ownerId == ownerId || leases[scope].expiresAt <= now
  }

  // ----- what they leave, said on the records -----

  predicate InFence(key: OutboxKey, fence: Fence) {
    key.userId == fence.userId && key.noteId == fence.noteId && key.sectionId == fence.sectionId && key.keyEpoch == fence.keyEpoch
  }

  /** The record as a draft: rejected for this reason, first rejected when it first was, and otherwise as it was. */
  predicate IsDraftOf(draft: OutboxRecord, record: OutboxRecord, reason: TerminalReason, rejectedAt: nat) {
    && draft.state == TerminalRejected && draft.terminalReason == Some(reason) && draft.updatedAt == rejectedAt
    && (match record.terminalRejectedAt case Some(t) => draft.terminalRejectedAt == Some(t) case None => draft.terminalRejectedAt == Some(rejectedAt))
    && draft.key == record.key && draft.header == record.header && draft.payload == record.payload
    && draft.attempts == record.attempts && draft.createdAt == record.createdAt
  }

  /** Exactly the fence's records became drafts. */
  predicate FencePreserved(before: Store, after: Store, fence: Fence, reason: TerminalReason, rejectedAt: nat) {
    && after.acknowledgements == before.acknowledgements && after.outbox.Keys == before.outbox.Keys
    && forall key :: key in before.outbox ==>
         if InFence(key, fence) then IsDraftOf(after.outbox[key], before.outbox[key], reason, rejectedAt)
         else after.outbox[key] == before.outbox[key]
  }

  lemma PreservingTerms(store: Store, fence: Fence, reason: TerminalReason, rejectedAt: nat)
    ensures FencePreserved(store, PreserveFence(store, fence, reason, rejectedAt), fence, reason, rejectedAt)
  {
    forall key ensures FenceOf(key) == fence <==> InFence(key, fence) {
    }
  }

  /** The acknowledgement is on record; the record is gone unless it is a draft; nothing else changed. */
  predicate AcknowledgedIn(before: Store, after: Store, key: OutboxKey, serverSequence: nat) {
    && key in after.acknowledgements && after.acknowledgements[key] == serverSequence
    && after.acknowledgements - {key} == before.acknowledgements - {key}
    && after.outbox - {key} == before.outbox - {key}
    && (key in after.outbox <==> key in before.outbox && before.outbox[key].state == TerminalRejected)
    && (key in after.outbox ==> after.outbox[key] == before.outbox[key])
  }

  lemma AcknowledgingTerms(store: Store, key: OutboxKey, serverSequence: nat)
    ensures AcknowledgedIn(store, DropAcknowledged(PutAcknowledgement(store, key, serverSequence), key), key, serverSequence)
  {
  }

  /** The stores themselves. */
  class FortnoteIndexedDb {
    var outbox: map<OutboxKey, OutboxRecord>
    var acknowledgements: map<OutboxKey, nat>
    var leases: map<Fence, Lease>

    function Contents(): Store
      reads this
    {
      Store(outbox, acknowledgements)
    }

    constructor ()
      ensures Contents() == Store(map[], map[]) && leases == map[]
    {
      outbox, acknowledgements, leases := map[], map[], map[];
    }

    method Put(record: OutboxRecord)
      modifies this`outbox
      ensures Contents() == PutOutbox(old(Contents()), record)
    {
      outbox := outbox[record.key := record];
    }

    /** Two transactions: a tab that dies in between leaves the acknowledgement and the record. */
    method AcknowledgeOutbox(record: OutboxRecord, serverSequence: nat)
      modifies this`outbox, this`acknowledgements
      ensures Contents() == DropAcknowledged(PutAcknowledgement(old(Contents()), record.key, serverSequence), record.key)
      ensures AcknowledgedIn(old(Contents()), Contents(), record.key, serverSequence)
    {
      AcknowledgingTerms(Contents(), record.key, serverSequence);
      WriteAcknowledgement(record.key, serverSequence);
      DropAcknowledgedRecord(record.key);
    }

    method WriteAcknowledgement(key: OutboxKey, serverSequence: nat)
      modifies this`acknowledgements
      ensures Contents() == PutAcknowledgement(old(Contents()), key, serverSequence)
    {
      acknowledgements := acknowledgements[key := serverSequence];
    }

    method DropAcknowledgedRecord(key: OutboxKey)
      modifies this`outbox
      ensures Contents() == DropAcknowledged(old(Contents()), key)
    {
      if key !in outbox || !outbox[key].state.TerminalRejected? {
        outbox := outbox - {key};
      }
    }

    /** At most one owner holds an unexpired lease on a scope. */
    method AcquireLease(scope: Fence, ownerId: Id, now: nat, duration: nat) returns (acquired: bool)
      modifies this`leases
      ensures acquired <==> MayLease(old(leases), scope, ownerId, now)
      ensures !acquired <==> scope in old(leases) && old(leases)[scope].ownerId != ownerId && now < old(leases)[scope].expiresAt
      ensures leases == if acquired then old(leases)[scope := Lease(ownerId, now + duration)] else old(leases)
    {
      if scope in leases && leases[scope].ownerId != ownerId && leases[scope].expiresAt > now {
        return false;
      }
      leases := leases[scope := Lease(ownerId, now + duration)];
      return true;
    }

    method PreserveOutboxFence(fence: Fence, reason: TerminalReason, rejectedAt: nat)
      modifies this`outbox
      ensures Contents() == PreserveFence(old(Contents()), fence, reason, rejectedAt)
      ensures FencePreserved(old(Contents()), Contents(), fence, reason, rejectedAt)
    {
      PreservingTerms(Contents(), fence, reason, rejectedAt);
      var matching := map key | key in outbox && FenceOf(key) == fence :: AsDraft(outbox[key], reason, rejectedAt);
      outbox := outbox + matching;
    }

    method DeleteOutboxFence(fence: Fence)
      modifies this`outbox
      ensures Contents() == DeleteFence(old(Contents()), fence)
      ensures acknowledgements == old(acknowledgements)
      ensures forall key :: key in outbox <==> key in old(outbox) && !InFence(key, fence)
      ensures forall key :: key in outbox ==> outbox[key] == old(outbox)[key]
    {
      var matching := set key | key in outbox && FenceOf(key) == fence;
      outbox := outbox - matching;
    }

    method ClearAccountData(userId: Id)
      modifies this`outbox, this`acknowledgements
      ensures Contents() == ClearAccount(old(Contents()), userId)
      ensures forall key :: key in outbox <==> key in old(outbox) && key.userId != userId
      ensures forall key :: key in acknowledgements <==> key in old(acknowledgements) && key.userId != userId
    {
      outbox := outbox - (set key | key in outbox && key.userId == userId);
      acknowledgements := acknowledgements - (set key | key in acknowledgements && key.userId == userId);
    }

    /** The account's records, oldest first, each exactly once. */
    method ListOutbox(userId: Id) returns (records: seq<OutboxRecord>)
      requires Keyed(outbox)
      ensures Lists(records, outbox, userId)
    {
      hide Listing;
      records := [];
      var remaining := set key | key in outbox && key.userId == userId;
      NothingListed(outbox, remaining, userId);
      while remaining != {}
        invariant Listing(records, outbox, remaining, userId)
        invariant forall key :: key in remaining ==> key in outbox
        decreases |remaining|
      {
        OldestExists(outbox, remaining);
        var next :| next in remaining && forall other :: other in remaining ==> outbox[next].createdAt <= outbox[other].createdAt;
        ListNext(records, outbox, remaining, userId, next);
        records := records + [outbox[next]];
        remaining := remaining - {next};
      }
      AllListed(records, outbox, userId);
    }
  }

  /** The records listed so far are older than those remaining. */
  ghost predicate Listing(records: seq<OutboxRecord>, outbox: map<OutboxKey, OutboxRecord>, remaining: set<OutboxKey>, userId: Id) {
    && Keyed(outbox)
    && (forall key :: key in remaining ==> key in outbox && key.userId == userId)
    && (forall key :: key in outbox && key.userId == userId ==> key in remaining || outbox[key] in records)
    && (forall i :: 0 <= i < |records| ==> Stored(records[i], outbox, userId) && records[i].key !in remaining)
    && (forall i, key :: 0 <= i < |records| && key in remaining ==> records[i].createdAt <= outbox[key].createdAt)
    && OldestFirst(records)
  }

  lemma NothingListed(outbox: map<OutboxKey, OutboxRecord>, remaining: set<OutboxKey>, userId: Id)
    requires Keyed(outbox) && remaining == set key | key in outbox && key.userId == userId
    ensures Listing([], outbox, remaining, userId)
  {
  }

  lemma ListNext(records: seq<OutboxRecord>, outbox: map<OutboxKey, OutboxRecord>, remaining: set<OutboxKey>, userId: Id, next: OutboxKey)
    requires Listing(records, outbox, remaining, userId) && next in remaining
    requires forall other :: other in remaining ==> outbox[next].createdAt <= outbox[other].createdAt
    ensures Listing(records + [outbox[next]], outbox, remaining - {next}, userId)
  {
    var longer := records + [outbox[next]];
    assert longer[|records|] == outbox[next];
    forall key | key in outbox && key.userId == userId && key !in remaining - {next} ensures outbox[key] in longer {
      assert key == next || outbox[key] in records;
    }
  }

  lemma AllListed(records: seq<OutboxRecord>, outbox: map<OutboxKey, OutboxRecord>, userId: Id)
    requires Listing(records, outbox, {}, userId)
    ensures Lists(records, outbox, userId)
  {
  }

  /** Object stores take a record's key from the record itself. */
  predicate Keyed(outbox: map<OutboxKey, OutboxRecord>) {
    forall key :: key in outbox ==> outbox[key].key == key
  }

  predicate Stored(record: OutboxRecord, outbox: map<OutboxKey, OutboxRecord>, userId: Id) {
    record.key in outbox && record.key.userId == userId && outbox[record.key] == record
  }

  predicate OldestFirst(records: seq<OutboxRecord>) {
    forall i, j :: 0 <= i < j < |records| ==> records[i].createdAt <= records[j].createdAt && records[i].key != records[j].key
  }

  predicate Lists(records: seq<OutboxRecord>, outbox: map<OutboxKey, OutboxRecord>, userId: Id) {
    && (forall i :: 0 <= i < |records| ==> Stored(records[i], outbox, userId))
    && (forall key :: key in outbox && key.userId == userId ==> outbox[key] in records)
    && OldestFirst(records)
  }

  lemma {:induction false} OldestExists(outbox: map<OutboxKey, OutboxRecord>, keys: set<OutboxKey>)
    requires keys != {} && forall key :: key in keys ==> key in outbox
    ensures exists k :: k in keys && forall other :: other in keys ==> outbox[k].createdAt <= outbox[other].createdAt
    decreases |keys|
  {
    var k :| k in keys;
    if keys != {k} {
      OldestExists(outbox, keys - {k});
      var m :| m in keys - {k} && forall other :: other in keys - {k} ==> outbox[m].createdAt <= outbox[other].createdAt;
      var best := if outbox[k].createdAt <= outbox[m].createdAt then k else m;
      forall other | other in keys ensures outbox[best].createdAt <= outbox[other].createdAt {
        assert other == k || other in keys - {k};
      }
    }
  }
}
