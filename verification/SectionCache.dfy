/**
 The browser's cache of encrypted content: least recently used eviction within entry and byte
 limits, and verified downloads that read it, refill it, and never depend on what is in it.
 */
module SectionCache {
  import opened Basics
  import opened Totals
  import opened Sorting
  import opened SectionHistory
  import opened ContentCodec
  import opened VerifiedContent

  datatype CacheKey = CacheKey(userId: Id, noteId: Id, sectionId: SectionRef, keyEpoch: nat, manifestId: Id)

  /** A pending record is still being uploaded and must not be evicted or read. */
  datatype CacheRecord = CacheRecord(encryptedBytes: Bytes, lastAccessedAt: nat, pending: bool)

  type Cache = map<CacheKey, CacheRecord>

  // ----- limits -----

  function SizesFor(cache: Cache, userId: Id): map<CacheKey, nat> {
    map key | key in cache && key.userId == userId :: |cache[key].encryptedBytes|
  }

  function Entries(cache: Cache, userId: Id): nat { |SizesFor(cache, userId)| }

  ghost function BytesHeld(cache: Cache, userId: Id): nat { Total(SizesFor(cache, userId)) }

  ghost predicate Within(cache: Cache, userId: Id, maxEntries: int, maxBytes: int) {
    Entries(cache, userId) <= maxEntries && BytesHeld(cache, userId) <= maxBytes
  }

  predicate Removable(cache: Cache, userId: Id, key: CacheKey) { key in cache && key.userId == userId && !cache[key].pending }

  function Age(cache: Cache, key: CacheKey): nat { if key in cache then cache[key].lastAccessedAt else 0 }

  /** Within the limits, or nothing left that may go. */
  ghost predicate Bounded(cache: Cache, userId: Id, maxEntries: int, maxBytes: int) {
    Within(cache, userId, maxEntries, maxBytes) || forall key :: !Removable(cache, userId, key)
  }

  function Without(cache: Cache, keys: seq<CacheKey>): Cache {
    if keys == [] then cache else Without(cache, keys[..|keys| - 1]) - {keys[|keys| - 1]}
  }

  /** The keys evicted: the least recently used ones, no more than the limits ask for. */
  ghost predicate Evicts(before: Cache, after: Cache, userId: Id, maxEntries: int, maxBytes: int, evicted: seq<CacheKey>) {
    && after == Without(before, evicted)
    && Bounded(after, userId, maxEntries, maxBytes)
    && (forall i :: 0 <= i < |evicted| ==> Removable(before, userId, evicted[i]) && !Within(Without(before, evicted[..i]), userId, maxEntries, maxBytes))
    && (forall i, key :: 0 <= i < |evicted| && Removable(after, userId, key) ==> Age(before, evicted[i]) <= Age(before, key))
  }

  /** The sizes of exactly this user's records. */
  ghost predicate HoldsFor(sizes: map<CacheKey, nat>, cache: Cache, userId: Id) {
    && (forall key :: key in sizes <==> key in cache && key.userId == userId)
    && (forall key :: key in sizes ==> sizes[key] == |cache[key].encryptedBytes|)
  }

  /** The limits bound how many records the user has and how many bytes they take together. */
  lemma WithinMeans(cache: Cache, userId: Id, maxEntries: int, maxBytes: int, sizes: map<CacheKey, nat>)
    requires HoldsFor(sizes, cache, userId)
    ensures Within(cache, userId, maxEntries, maxBytes) <==> |sizes| <= maxEntries && Total(sizes) <= maxBytes
  {
    assert sizes == SizesFor(cache, userId);
  }

  /** Gone are the evicted keys alone: settled records of the user, none accessed later than one that stays. */
  ghost predicate EvictsOldest(before: Cache, after: Cache, userId: Id, evicted: seq<CacheKey>) {
    && (forall key :: key in after <==> key in before && key !in evicted)
    && (forall key :: key in after ==> after[key] == before[key])
    && (forall key :: key in evicted ==> key in before && key.userId == userId && !before[key].pending)
    && (forall gone, kept :: gone in evicted && gone in before && kept in after && kept.userId == userId && !after[kept].pending ==>
          before[gone].lastAccessedAt <= after[kept].lastAccessedAt)
  }

  lemma EvictionTerms(before: Cache, after: Cache, userId: Id, maxEntries: int, maxBytes: int, evicted: seq<CacheKey>)
    requires Evicts(before, after, userId, maxEntries, maxBytes, evicted)
    ensures EvictsOldest(before, after, userId, evicted)
  {
    hide Bounded, Within;
    WithoutKeys(before, evicted);
    forall key | key in evicted ensures key in before && key.userId == userId && !before[key].pending {
      EvictedWasRemovable(before, after, userId, maxEntries, maxBytes, evicted, key);
    }
    forall gone, kept | gone in evicted && gone in before && kept in after && kept.userId == userId && !after[kept].pending
      ensures before[gone].lastAccessedAt <= after[kept].lastAccessedAt
    {
      var i :| 0 <= i < |evicted| && evicted[i] == gone;
      assert Removable(after, userId, kept);
      assert Age(before, evicted[i]) <= Age(before, kept);
    }
  }

  lemma EvictedWasRemovable(before: Cache, after: Cache, userId: Id, maxEntries: int, maxBytes: int, evicted: seq<CacheKey>, key: CacheKey)
    requires Evicts(before, after, userId, maxEntries, maxBytes, evicted) && key in evicted
    ensures Removable(before, userId, key)
  {
    hide Bounded, Within;
    var i :| 0 <= i < |evicted| && evicted[i] == key;
  }

  lemma EvictedBecauseOver(before: Cache, after: Cache, userId: Id, maxEntries: int, maxBytes: int, evicted: seq<CacheKey>)
    requires Evicts(before, after, userId, maxEntries, maxBytes, evicted) && evicted != []
    ensures !Within(before, userId, maxEntries, maxBytes)
  {
    hide Within, Bounded;
    assert evicted[..0] == [] && Without(before, evicted[..0]) == before;
  }

  lemma {:induction false} WithoutKeys(cache: Cache, keys: seq<CacheKey>)
    ensures forall key :: key in Without(cache, keys) <==> key in cache && key !in keys
    ensures forall key :: key in Without(cache, keys) ==> Without(cache, keys)[key] == cache[key]
  {
    if keys != [] {
      WithoutKeys(cache, keys[..|keys| - 1]);
    }
  }

  /** Dropping one record of the user lowers both counts by exactly that record. */
  lemma DropOne(cache: Cache, userId: Id, key: CacheKey)
    requires key in cache && key.userId == userId
    ensures Entries(cache - {key}, userId) == Entries(cache, userId) - 1
    ensures BytesHeld(cache - {key}, userId) == BytesHeld(cache, userId) - |cache[key].encryptedBytes|
  {
    var sizes: map<CacheKey, nat> := SizesFor(cache, userId);
    assert SizesFor(cache - {key}, userId) == sizes - {key};
    TotalRemove(sizes, key);
    OneLessKey(sizes, key);
  }

  lemma OneLessKey(m: map<CacheKey, nat>, key: CacheKey)
    requires key in m
    ensures |m - {key}| == |m| - 1
  {
    assert m.Keys == (m - {key}).Keys + {key};
    assert |m| == |m.Keys| && |m - {key}| == |(m - {key}).Keys|;
  }

  /** Writing one record raises them by no more than that record. */
  lemma PutOne(cache: Cache, userId: Id, key: CacheKey, record: CacheRecord)
    requires key.userId == userId
    ensures Entries(cache[key := record], userId) <= Entries(cache, userId) + 1
    ensures BytesHeld(cache[key := record], userId) <= BytesHeld(cache, userId) + |record.encryptedBytes|
  {
    var sizes: map<CacheKey, nat> := SizesFor(cache, userId);
    var size: nat := |record.encryptedBytes|;
    assert SizesFor(cache[key := record], userId) == sizes[key := size];
    TotalUpdate(sizes, key, size);
    OneMoreKey(sizes, key, size);
  }

  lemma OneMoreKey(m: map<CacheKey, nat>, key: CacheKey, v: nat)
    ensures |m[key := v]| <= |m| + 1
  {
    assert m[key := v].Keys == m.Keys + {key};
    assert |m| == |m.Keys| && |m[key := v]| == |m[key := v].Keys|;
  }

  // ----- the store -----

  ghost predicate ListsRemovable(cache: Cache, userId: Id, keys: seq<CacheKey>) {
    && (forall key :: key in keys <==> Removable(cache, userId, key))
    && (forall i, j :: 0 <= i < j < |keys| ==> keys[i] != keys[j])
  }

  class SectionCacheStore {
    var records: Cache

    constructor ()
      ensures records == map[]
    {
      records := map[];
    }

    method Put(key: CacheKey, record: CacheRecord)
      modifies this
      ensures records == old(records)[key := record]
    {
      records := records[key := record];
    }

    method Delete(key: CacheKey)
      modifies this
      ensures records == old(records) - {key}
    {
      records := records - {key};
    }

    /** The user's records that may go, least recently used first. */
    method ListRemovable(userId: Id) returns (keys: seq<CacheKey>)
      ensures ListsRemovable(records, userId, keys)
      ensures forall i, j :: 0 <= i < j < |keys| ==> Age(records, keys[i]) <= Age(records, keys[j])
    {
      keys := [];
      var rest := set key | key in records && key.userId == userId && !records[key].pending;
      while rest != {}
        invariant forall key :: key in rest ==> Removable(records, userId, key)
        invariant forall key :: Removable(records, userId, key) <==> key in rest || key in keys
        invariant forall i, j :: 0 <= i < j < |keys| ==> keys[i] != keys[j]
        invariant forall i :: 0 <= i < |keys| ==> keys[i] !in rest
        invariant forall i, j :: 0 <= i < j < |keys| ==> Age(records, keys[i]) <= Age(records, keys[j])
        invariant forall i, key :: 0 <= i < |keys| && key in rest ==> Age(records, keys[i]) <= Age(records, key)
        decreases |rest|
      {
        var some :| some in rest;
        LeastRecentExists(records, rest, some);
        var key :| key in rest && forall other :: other in rest ==> Age(records, key) <= Age(records, other);
        keys := keys + [key];
        rest := rest - {key};
      }
    }

    /** evictSectionCache; None when the limits are refused. */
    method EvictSectionCache(userId: Id, maxEntries: int, maxBytes: int) returns (evicted: Option<seq<CacheKey>>)
      modifies this
      ensures evicted.None? <==> maxEntries < 0 || maxBytes < 0
      ensures evicted.None? ==> records == old(records)
      ensures evicted.Some? ==> Evicts(old(records), records, userId, maxEntries, maxBytes, evicted.value)
      ensures evicted.Some? ==> EvictsOldest(old(records), records, userId, evicted.value)
    {
      hide EvictsOldest, Evicts, Removable, SizesFor, Entries, BytesHeld, Without, ListsRemovable;
      if maxEntries < 0 || maxBytes < 0 {
        return None;
      }
      var removable := ListRemovable(userId);
      var entries: int := CountEntries(userId);
      var bytes: int := SumBytes(userId);
      var n := 0;
      assert removable[..0] == [] && Without(records, []) == records by { WithoutNone(records); }
      while n < |removable| && !(entries <= maxEntries && bytes <= maxBytes)
        invariant n <= |removable| && records == old(records)
        invariant entries == Entries(Without(records, removable[..n]), userId) && bytes == BytesHeld(Without(records, removable[..n]), userId)
        invariant OverUntil(records, userId, maxEntries, maxBytes, removable, n)
      {
        EvictOneMore(records, userId, removable, n);
        entries, bytes := entries - 1, bytes - |records[removable[n]].encryptedBytes|;
        n := n + 1;
      }
      EvictionEnds(records, userId, maxEntries, maxBytes, removable, n);
      EvictionTerms(records, Without(records, removable[..n]), userId, maxEntries, maxBytes, removable[..n]);
      DropAll(removable[..n]);
      return Some(removable[..n]);
    }

    method DropAll(keys: seq<CacheKey>)
      modifies this
      ensures records == Without(old(records), keys)
    {
      for i := 0 to |keys|
        invariant records == Without(old(records), keys[..i])
      {
        assert keys[..i + 1][..i] == keys[..i];
        records := records - {keys[i]};
      }
      assert keys[..|keys|] == keys;
    }

    method CountEntries(userId: Id) returns (entries: nat)
      ensures entries == Entries(records, userId)
    {
      entries := |SizesFor(records, userId)|;
    }

    method SumBytes(userId: Id) returns (bytes: nat)
      ensures bytes == BytesHeld(records, userId)
    {
      bytes := 0;
      var rest := SizesFor(records, userId);
      while rest != map[]
        invariant bytes + Total(rest) == BytesHeld(records, userId)
        decreases |rest|
      {
        var key :| key in rest;
        TotalRemove(rest, key);
        bytes := bytes + rest[key];
        rest := rest - {key};
      }
    }
  }

  lemma {:induction false} LeastRecentExists(cache: Cache, keys: set<CacheKey>, some: CacheKey)
    requires some in keys && keys <= cache.Keys
    ensures exists key :: key in keys && forall other :: other in keys ==> Age(cache, key) <= Age(cache, other)
    decreases Age(cache, some)
  {
    if older :| older in keys && Age(cache, older) < Age(cache, some) {
      LeastRecentExists(cache, keys, older);
    } else {
      assert forall other :: other in keys ==> Age(cache, some) <= Age(cache, other);
    }
  }

  lemma WithoutNone(cache: Cache)
    ensures Without(cache, []) == cache
  {
  }

  /** The limits are exceeded until this many of the listed records are gone. */
  ghost predicate OverUntil(cache: Cache, userId: Id, maxEntries: int, maxBytes: int, removable: seq<CacheKey>, n: nat) {
    n <= |removable| && forall i :: 0 <= i < n ==> !Within(Without(cache, removable[..i]), userId, maxEntries, maxBytes)
  }

  lemma EvictOneMore(cache: Cache, userId: Id, removable: seq<CacheKey>, n: nat)
    requires ListsRemovable(cache, userId, removable) && n < |removable|
    ensures var smaller, key := Without(cache, removable[..n]), removable[n];
      && key in cache && Without(cache, removable[..n + 1]) == smaller - {key}
      && Entries(smaller - {key}, userId) == Entries(smaller, userId) - 1
      && BytesHeld(smaller - {key}, userId) == BytesHeld(smaller, userId) - |cache[key].encryptedBytes|
  {
    hide Entries, BytesHeld;
    assert removable[..n + 1][..n] == removable[..n];
    assert removable[n] in removable;
    WithoutKeys(cache, removable[..n]);
    DropOne(Without(cache, removable[..n]), userId, removable[n]);
  }

  lemma PrefixMembers(keys: seq<CacheKey>, n: nat)
    requires n <= |keys|
    ensures forall j :: 0 <= j < n ==> keys[j] in keys[..n]
  {
    forall j | 0 <= j < n ensures keys[j] in keys[..n] {
      assert keys[..n][j] == keys[j];
    }
  }

  lemma EvictionEnds(cache: Cache, userId: Id, maxEntries: int, maxBytes: int, removable: seq<CacheKey>, n: nat)
    requires ListsRemovable(cache, userId, removable) && n <= |removable|
    requires forall i, j :: 0 <= i < j < |removable| ==> Age(cache, removable[i]) <= Age(cache, removable[j])
    requires n == |removable| || Within(Without(cache, removable[..n]), userId, maxEntries, maxBytes)
    requires OverUntil(cache, userId, maxEntries, maxBytes, removable, n)
    ensures Evicts(cache, Without(cache, removable[..n]), userId, maxEntries, maxBytes, removable[..n])
  {
    hide Within, Without;
    var evicted := removable[..n];
    var after := Without(cache, evicted);
    assert forall i :: 0 <= i < n ==> evicted[..i] == removable[..i];
    WithoutKeys(cache, evicted);
    forall i | 0 <= i < n ensures Removable(cache, userId, evicted[i]) {
      assert evicted[i] == removable[i] && removable[i] in removable;
    }
    forall i, key | 0 <= i < n && Removable(after, userId, key) ensures Age(cache, evicted[i]) <= Age(cache, key) {
      assert Removable(cache, userId, key) && key in removable && key !in evicted;
      PrefixMembers(removable, n);
      var j :| 0 <= j < |removable| && removable[j] == key;
    }
    if n == |removable| {
      assert evicted == removable;
    }
  }

  // ----- reading -----

  /** A cache entry is used only if it decodes and passes the same verification as a download. */
  predicate CacheHit(crypto: Crypto, key: Id, claim: Claim, cached: Option<CacheRecord>, decode: Bytes -> Option<seq<Chunk>>) {
    && cached.Some? && !cached.value.pending
    && decode(cached.value.encryptedBytes).Some?
    && Accepts(crypto, key, claim, decode(cached.value.encryptedBytes).value)
  }

  function Lookup(cache: Cache, key: CacheKey): Option<CacheRecord> { if key in cache then Some(cache[key]) else None }

  /** The wire form of cached chunks. */
  datatype CacheCodec = CacheCodec(encode: seq<Chunk> -> Bytes, decode: Bytes -> Option<seq<Chunk>>)

  datatype CacheLimits = CacheLimits(maxEntries: int, maxBytes: int)

  /** How the writes to the cache go: the first may run out of space or fail otherwise, the second may fail. */
  datatype PutFaults = PutFaults(outOfSpace: bool, broken: bool, retryFails: bool)

  predicate LimitsValid(limits: CacheLimits) { 0 < limits.maxEntries && 0 < limits.maxBytes }

  /** readVerifiedCache: a hit is touched, a broken entry deleted, a pending one passed over. */
  method ReadVerifiedCache(store: SectionCacheStore, crypto: Crypto, key: Id, claim: Claim, at: CacheKey, codec: CacheCodec, now: nat)
      returns (plaintext: Option<Bytes>)
    requires Ideal(crypto)
    modifies store
    ensures var cached := old(Lookup(store.records, at));
      && (plaintext.Some? <==> CacheHit(crypto, key, claim, cached, codec.decode))
      && (plaintext.Some? ==>
            && plaintext.value == Plaintext(crypto, key, claim, codec.decode(cached.value.encryptedBytes).value)
            && store.records == old(store.records)[at := cached.value.(lastAccessedAt := now)])
      && (plaintext.None? ==>
            store.records == if cached.Some? && !cached.value.pending then old(store.records) - {at} else old(store.records))
  {
    if at !in store.records || store.records[at].pending {
      return None;
    }
    var cached := store.records[at];
    var chunks := codec.decode(cached.encryptedBytes);
    if chunks.Some? {
      var plain := DecryptContentChunks(crypto, key, claim, chunks.value);
      if plain.Ok? {
        store.Put(at, cached.(lastAccessedAt := now));
        return Some(plain.value);
      }
    }
    store.Delete(at);
    return None;
  }

  /** What caching some bytes under a key may do to a cache: everything else is kept or evicted, never changed. */
  ghost predicate Recached(before: Cache, after: Cache, at: CacheKey, record: CacheRecord) {
    && (forall key :: key in after && key != at ==> key in before && after[key] == before[key])
    && (forall key :: key in before && key != at && (key.userId != at.userId || before[key].pending) ==> key in after)
    && (at in after ==> after[at] == record || (at in before && after[at] == before[at]))
  }

  lemma EvictingRecaches(before: Cache, middle: Cache, after: Cache, at: CacheKey, record: CacheRecord, maxEntries: int, maxBytes: int, evicted: seq<CacheKey>)
    requires Recached(before, middle, at, record) && Evicts(middle, after, at.userId, maxEntries, maxBytes, evicted)
    ensures Recached(before, after, at, record)
  {
    hide Bounded, Within;
    WithoutKeys(middle, evicted);
    forall key | key in before && key != at && (key.userId != at.userId || before[key].pending) ensures key in after {
      if key in evicted {
        EvictedWasRemovable(middle, after, at.userId, maxEntries, maxBytes, evicted, key);
      }
    }
  }

  /** What the records still being uploaded take. */
  function PendingOnly(cache: Cache): Cache { map key | key in cache && cache[key].pending :: cache[key] }

  /** The records still being uploaded leave room for one more of this size. */
  ghost predicate PendingLeavesRoom(cache: Cache, userId: Id, limits: CacheLimits, size: nat) {
    Within(PendingOnly(cache), userId, limits.maxEntries - 1, limits.maxBytes - size)
  }

  lemma NothingRemovableIsPendingOnly(cache: Cache, userId: Id)
    requires forall key :: !Removable(cache, userId, key)
    ensures SizesFor(cache, userId) == SizesFor(PendingOnly(cache), userId)
  {
    forall key | key in SizesFor(cache, userId) ensures key in SizesFor(PendingOnly(cache), userId) {
      assert !Removable(cache, userId, key);
    }
  }

  lemma EvictionKeepsPending(before: Cache, after: Cache, userId: Id, maxEntries: int, maxBytes: int, evicted: seq<CacheKey>)
    requires Evicts(before, after, userId, maxEntries, maxBytes, evicted)
    ensures PendingOnly(after) == PendingOnly(before)
  {
    hide Bounded, Within;
    WithoutKeys(before, evicted);
    forall key | key in PendingOnly(before) ensures key in after {
      if key in evicted {
        EvictedWasRemovable(before, after, userId, maxEntries, maxBytes, evicted, key);
      }
    }
  }

  /** After making room, the new record fits, so the last eviction takes nothing. */
  lemma RoomWasMade(before: Cache, made: Cache, at: CacheKey, record: CacheRecord, limits: CacheLimits, evicted: seq<CacheKey>)
    requires LimitsValid(limits) && |record.encryptedBytes| <= limits.maxBytes
    requires Evicts(before, made, at.userId, Max(0, limits.maxEntries - 1), Max(0, limits.maxBytes - |record.encryptedBytes|), evicted)
    requires PendingLeavesRoom(before, at.userId, limits, |record.encryptedBytes|)
    ensures Within(made[at := record], at.userId, limits.maxEntries, limits.maxBytes)
  {
    hide SizesFor;
    EvictionKeepsPending(before, made, at.userId, Max(0, limits.maxEntries - 1), Max(0, limits.maxBytes - |record.encryptedBytes|), evicted);
    if forall key :: !Removable(made, at.userId, key) {
      NothingRemovableIsPendingOnly(made, at.userId);
    }
    PutOne(made, at.userId, at, record);
  }

  lemma NothingToEvict(before: Cache, after: Cache, userId: Id, maxEntries: int, maxBytes: int, evicted: seq<CacheKey>)
    requires Evicts(before, after, userId, maxEntries, maxBytes, evicted) && Within(before, userId, maxEntries, maxBytes)
    ensures after == before
  {
    hide Within;
    if evicted != [] {
      EvictedBecauseOver(before, after, userId, maxEntries, maxBytes, evicted);
    }
  }

  /** Make room, write, and trim: the three transactions of one attempt. */
  method MakeRoomAndPut(store: SectionCacheStore, at: CacheKey, record: CacheRecord, limits: CacheLimits, putFails: bool) returns (stored: bool)
    requires LimitsValid(limits) && |record.encryptedBytes| <= limits.maxBytes
    modifies store
    ensures stored <==> !putFails
    ensures Recached(old(store.records), store.records, at, record)
    ensures stored ==> Bounded(store.records, at.userId, limits.maxEntries, limits.maxBytes)
    ensures stored && PendingLeavesRoom(old(store.records), at.userId, limits, |record.encryptedBytes|) ==>
      Lookup(store.records, at) == Some(record)
    ensures !stored ==> PendingOnly(store.records) == PendingOnly(old(store.records))
  {
    hide Recached, Evicts, Within, PendingLeavesRoom;
    ghost var before := store.records;
    var room := store.EvictSectionCache(at.userId, Max(0, limits.maxEntries - 1), Max(0, limits.maxBytes - |record.encryptedBytes|));
    NothingRecaches(before, at, record);
    EvictingRecaches(before, before, store.records, at, record, Max(0, limits.maxEntries - 1), Max(0, limits.maxBytes - |record.encryptedBytes|), room.value);
    EvictionKeepsPending(before, store.records, at.userId, Max(0, limits.maxEntries - 1), Max(0, limits.maxBytes - |record.encryptedBytes|), room.value);
    if putFails {
      return false;
    }
    ghost var made := store.records;
    store.Put(at, record);
    PuttingRecaches(before, made, at, record);
    var trimmed := store.EvictSectionCache(at.userId, limits.maxEntries, limits.maxBytes);
    EvictingRecaches(before, made[at := record], store.records, at, record, limits.maxEntries, limits.maxBytes, trimmed.value);
    EvictsBounds(made[at := record], store.records, at.userId, limits.maxEntries, limits.maxBytes, trimmed.value);
    if PendingLeavesRoom(before, at.userId, limits, |record.encryptedBytes|) {
      RoomWasMade(before, made, at, record, limits, room.value);
      NothingToEvict(made[at := record], store.records, at.userId, limits.maxEntries, limits.maxBytes, trimmed.value);
    }
    return true;
  }

  lemma NothingRecaches(cache: Cache, at: CacheKey, record: CacheRecord)
    ensures Recached(cache, cache, at, record)
  {
  }

  lemma PuttingRecaches(before: Cache, middle: Cache, at: CacheKey, record: CacheRecord)
    requires Recached(before, middle, at, record)
    ensures Recached(before, middle[at := record], at, record)
  {
  }

  lemma EvictsBounds(before: Cache, after: Cache, userId: Id, maxEntries: int, maxBytes: int, evicted: seq<CacheKey>)
    requires Evicts(before, after, userId, maxEntries, maxBytes, evicted)
    ensures Bounded(after, userId, maxEntries, maxBytes)
  {
  }

  lemma RecachingAgain(before: Cache, middle: Cache, after: Cache, at: CacheKey, record: CacheRecord)
    requires Recached(before, middle, at, record) && Recached(middle, after, at, record)
    ensures Recached(before, after, at, record)
  {
  }

  /** cacheVerifiedChunks: nothing for unusable limits or too large a content; one more attempt when space runs out. */
  method CacheVerifiedChunks(store: SectionCacheStore, at: CacheKey, chunks: seq<Chunk>, codec: CacheCodec, limits: CacheLimits, now: nat,
      faults: PutFaults)
    modifies store
    ensures Recached(old(store.records), store.records, at, CacheRecord(codec.encode(chunks), now, false))
    ensures !LimitsValid(limits) || |codec.encode(chunks)| > limits.maxBytes ==> store.records == old(store.records)
    ensures LimitsValid(limits) && |codec.encode(chunks)| <= limits.maxBytes && !faults.broken && !(faults.outOfSpace && faults.retryFails) ==>
      && Bounded(store.records, at.userId, limits.maxEntries, limits.maxBytes)
      && (old(PendingLeavesRoom(store.records, at.userId, limits, |codec.encode(chunks)|)) ==>
            Lookup(store.records, at) == Some(CacheRecord(codec.encode(chunks), now, false)))
  {
    hide Recached, Bounded, PendingLeavesRoom;
    var record := CacheRecord(codec.encode(chunks), now, false);
    ghost var before := store.records;
    NothingRecaches(before, at, record);
    if !LimitsValid(limits) || |record.encryptedBytes| > limits.maxBytes {
      return;
    }
    var stored := MakeRoomAndPut(store, at, record, limits, faults.outOfSpace || faults.broken);
    if !stored && !faults.broken {
      ghost var middle := store.records;
      SamePendingSameRoom(before, middle, at.userId, limits, |record.encryptedBytes|);
      var again := MakeRoomAndPut(store, at, record, limits, faults.retryFails);
      RecachingAgain(before, middle, store.records, at, record);
      if !again {
        ghost var last := store.records;
        var trimmed := store.EvictSectionCache(at.userId, limits.maxEntries, limits.maxBytes);
        EvictingRecaches(before, last, store.records, at, record, limits.maxEntries, limits.maxBytes, trimmed.value);
      }
    }
  }

  lemma SamePendingSameRoom(before: Cache, middle: Cache, userId: Id, limits: CacheLimits, size: nat)
    requires PendingOnly(middle) == PendingOnly(before)
    ensures PendingLeavesRoom(middle, userId, limits, size) <==> PendingLeavesRoom(before, userId, limits, size)
  {
  }

  // ----- downloads -----

  /**
   downloadVerifiedContent: succeeds exactly when the cache verifies, or no poll of the abort signal
   finds it aborted and the server verifies; when the server verifies, returns what it serves,
   whatever the cache holds; then caches it.
   */
  method DownloadVerifiedContent(store: SectionCacheStore, crypto: Crypto, key: Id, claim: Claim, at: CacheKey, codec: CacheCodec,
      limits: CacheLimits, fetch: nat -> Downloaded, signal: nat -> bool, now: nat, faults: PutFaults)
    returns (result: Result<Bytes>)
    requires Ideal(crypto)
    modifies store
    ensures result.Ok? <==>
      (old(CacheHit(crypto, key, claim, Lookup(store.records, at), codec.decode))
        || (Uninterrupted(signal, claim.chunkCount) && ServerVerifies(crypto, key, claim, fetch)))
    ensures result.Ok? && ServerVerifies(crypto, key, claim, fetch) ==>
      result.value == Plaintext(crypto, key, claim, Served(fetch, claim.chunkCount))
    ensures old(at !in store.records || store.records[at].pending || codec.decode(store.records[at].encryptedBytes) == None) ==>
      (result.Ok? <==> Uninterrupted(signal, claim.chunkCount) && ServerVerifies(crypto, key, claim, fetch))
    ensures old(CacheHit(crypto, key, claim, Lookup(store.records, at), codec.decode)) ==>
      store.records == old(store.records)[at := old(store.records)[at].(lastAccessedAt := now)]
    ensures result.Err? ==>
      store.records == if old(at in store.records && !store.records[at].pending) then old(store.records) - {at} else old(store.records)
    ensures (
      && result.Ok? && !old(CacheHit(crypto, key, claim, Lookup(store.records, at), codec.decode))
      && LimitsValid(limits) && Fits(codec, fetch, claim, limits) && faults == PutFaults(false, false, false)
      && old(PendingLeavesRoom(store.records, at.userId, limits, CachedSize(codec, fetch, claim)))) ==>
      Lookup(store.records, at) == Some(CacheRecord(codec.encode(Served(fetch, claim.chunkCount)), now, false))
  {
    hide PendingLeavesRoom, Recached, Bounded, Ideal, Accepts, Plaintext, Uninterrupted;
    ghost var before := store.records;
    var cached := ReadVerifiedCache(store, crypto, key, claim, at, codec, now);
    if cached.Some? {
      if ServerVerifies(crypto, key, claim, fetch) {
        ManifestDeterminesContent(crypto, key, claim, codec.decode(before[at].encryptedBytes).value, Served(fetch, claim.chunkCount));
      }
      return Ok(cached.value);
    }
    result := FetchVerified(crypto, key, claim, fetch, signal);
    if result.Ok? {
      var chunks := Served(fetch, claim.chunkCount);
      DroppingLeavesRoom(before, at, limits, |codec.encode(chunks)|);
      CacheVerifiedChunks(store, at, chunks, codec, limits, now, faults);
    }
  }

  /** The download loop and the verification. */
  method FetchVerified(crypto: Crypto, key: Id, claim: Claim, fetch: nat -> Downloaded, signal: nat -> bool)
      returns (result: Result<Bytes>)
    requires Ideal(crypto)
    ensures result.Ok? <==> Uninterrupted(signal, claim.chunkCount) && ServerVerifies(crypto, key, claim, fetch)
    ensures result.Ok? ==> result.value == Plaintext(crypto, key, claim, Served(fetch, claim.chunkCount))
  {
    hide Ideal, Accepts, Plaintext;
    var chunks: seq<Chunk> := [];
    for chunkIndex := 0 to Max(0, claim.chunkCount)
      invariant chunks == Served(fetch, chunkIndex)
      invariant forall i :: 0 <= i < chunkIndex ==> !signal(i)
    {
      if signal(chunkIndex) {
        return Err("Content transfer aborted");
      }
      chunks := chunks + [FetchedChunk(chunkIndex, fetch(chunkIndex))];
    }
    if signal(Max(0, claim.chunkCount)) {
      return Err("Content transfer aborted");
    }
    result := DecryptContentChunks(crypto, key, claim, chunks);
    if claim.chunkCount < 0 {
      NegativeCountRefused(crypto, key, claim, chunks);
    }
  }

  /** No poll finds the signal aborted: one before each chunk and one before verifying. */
  predicate Uninterrupted(signal: nat -> bool, chunkCount: int) { forall i :: 0 <= i <= Max(0, chunkCount) ==> !signal(i) }

  predicate ServerVerifies(crypto: Crypto, key: Id, claim: Claim, fetch: nat -> Downloaded) {
    claim.chunkCount >= 0 && Accepts(crypto, key, claim, Served(fetch, claim.chunkCount))
  }

  function CachedSize(codec: CacheCodec, fetch: nat -> Downloaded, claim: Claim): nat {
    if claim.chunkCount < 0 then 0 else |codec.encode(Served(fetch, claim.chunkCount))|
  }

  predicate Fits(codec: CacheCodec, fetch: nat -> Downloaded, claim: Claim, limits: CacheLimits) {
    claim.chunkCount >= 0 && CachedSize(codec, fetch, claim) <= limits.maxBytes
  }

  /** Deleting a broken entry leaves the pending ones as they are. */
  lemma DroppingLeavesRoom(cache: Cache, at: CacheKey, limits: CacheLimits, size: nat)
    ensures at in cache && !cache[at].pending ==>
      (PendingLeavesRoom(cache - {at}, at.userId, limits, size) <==> PendingLeavesRoom(cache, at.userId, limits, size))
  {
    if at in cache && !cache[at].pending {
      assert PendingOnly(cache - {at}) == PendingOnly(cache);
    }
  }

  lemma NegativeCountRefused(crypto: Crypto, key: Id, claim: Claim, chunks: seq<Chunk>)
    requires claim.chunkCount < 0
    ensures !Accepts(crypto, key, claim, chunks)
  {
  }

  /** What a download cached is a hit next time, without the server. */
  lemma CachedDownloadHits(crypto: Crypto, key: Id, claim: Claim, codec: CacheCodec, chunks: seq<Chunk>, now: nat)
    requires Accepts(crypto, key, claim, chunks) && codec.decode(codec.encode(chunks)) == Some(chunks)
    ensures CacheHit(crypto, key, claim, Some(CacheRecord(codec.encode(chunks), now, false)), codec.decode)
  {
  }

  /**
   The cache is invisible: whatever its bytes are, when both the cache path and a fresh
   download from any server succeed they return the same plaintext.
   */
  lemma CacheHitIsFreshDownload(crypto: Crypto, key: Id, claim: Claim, cached: CacheRecord,
      decode: Bytes -> Option<seq<Chunk>>, downloaded: seq<Chunk>)
    requires Ideal(crypto) && CacheHit(crypto, key, claim, Some(cached), decode) && Accepts(crypto, key, claim, downloaded)
    ensures Plaintext(crypto, key, claim, decode(cached.encryptedBytes).value) == Plaintext(crypto, key, claim, downloaded)
  {
    ManifestDeterminesContent(crypto, key, claim, decode(cached.encryptedBytes).value, downloaded);
  }
}
