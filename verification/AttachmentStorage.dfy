/**
 Attachment ciphertext in database rows: a byte stream of any fragmentation is stored in
 fixed-size chunks, and read back whole or refused.
 */
module AttachmentStorage {
  import opened Basics
  import opened Totals

  const CHUNK_BYTES: nat := 262144
  const MAX_SAFE_INTEGER: nat := 9007199254740991

  datatype ChunkKey = ChunkKey(storageId: Id, chunkIndex: nat)

  datatype SizeError = Mismatch | TooLarge | SourceFailed | StorageIdTaken

  datatype WriteOutcome = Written | WriteFailed(error: SizeError)

  function Concat(parts: seq<Bytes>): Bytes {
    if parts == [] then [] else Concat(parts[..|parts| - 1]) + parts[|parts| - 1]
  }

  /** The one way a byte string is cut: full chunks, and a last one that is not empty. */
  function Canonical(bytes: Bytes): (chunks: seq<Bytes>)
    decreases |bytes|
  {
    if bytes == [] then []
    else if |bytes| <= CHUNK_BYTES then [bytes]
    else [bytes[..CHUNK_BYTES]] + Canonical(bytes[CHUNK_BYTES..])
  }

  /** All chunks but the last are full, none is empty or too long, and they are the bytes. */
  lemma {:induction false} CanonicalShape(bytes: Bytes)
    ensures var chunks := Canonical(bytes);
      && Concat(chunks) == bytes
      && (forall i :: 0 <= i < |chunks| ==> 0 < |chunks[i]| <= 262_144)
      && (forall i :: 0 <= i < |chunks| - 1 ==> |chunks[i]| == 262_144)
    decreases |bytes|
  {
    var chunks := Canonical(bytes);
    if bytes != [] && |bytes| > CHUNK_BYTES {
      CanonicalShape(bytes[CHUNK_BYTES..]);
      ConcatPrepend(bytes[..CHUNK_BYTES], Canonical(bytes[CHUNK_BYTES..]));
    } else if bytes != [] {
      assert chunks[..|chunks| - 1] == [];
    }
  }

  lemma {:induction false} ConcatPrepend(head: Bytes, rest: seq<Bytes>)
    ensures Concat([head] + rest) == head + Concat(rest)
  {
    var all := [head] + rest;
    if rest == [] {
      assert all[..|all| - 1] == [];
    } else {
      ConcatPrepend(head, rest[..|rest| - 1]);
      assert all[..|all| - 1] == [head] + rest[..|rest| - 1];
    }
  }

  lemma ConcatAppend(parts: seq<Bytes>, last: Bytes)
    ensures Concat(parts + [last]) == Concat(parts) + last
  {
    assert (parts + [last])[..|parts|] == parts;
  }

  function Tail(buffered: Bytes): seq<Bytes> { if buffered == [] then [] else [buffered] }

  /** Full chunks followed by a remainder are the canonical cut of all their bytes. */
  lemma {:induction false} FullChunksAreCanonical(stored: seq<Bytes>, buffered: Bytes)
    requires |buffered| <= CHUNK_BYTES
    requires forall i :: 0 <= i < |stored| ==> |stored[i]| == CHUNK_BYTES
    ensures Canonical(Concat(stored) + buffered) == stored + Tail(buffered)
    decreases |stored|
  {
    if stored != [] {
      var rest := stored[1..];
      ConcatPrepend(stored[0], rest);
      assert stored == [stored[0]] + rest;
      FullChunksAreCanonical(rest, buffered);
      var bytes := Concat(stored) + buffered;
      assert bytes == stored[0] + (Concat(rest) + buffered);
      if |bytes| > CHUNK_BYTES {
        assert bytes[..CHUNK_BYTES] == stored[0] && bytes[CHUNK_BYTES..] == Concat(rest) + buffered;
      } else {
        FullChunksHaveBytes(rest);
        assert bytes == stored[0];
      }
    } else {
      assert Concat(stored) + buffered == buffered;
    }
  }

  lemma FullChunksHaveBytes(rest: seq<Bytes>)
    requires forall i :: 0 <= i < |rest| ==> |rest[i]| == CHUNK_BYTES
    ensures rest != [] ==> |Concat(rest)| >= CHUNK_BYTES
  {
    if rest != [] {
      var last := rest[|rest| - 1];
      assert |last| == CHUNK_BYTES;
    }
  }

  predicate SizesValid(expectedBytes: int, maxBytes: int) {
    0 <= expectedBytes <= MAX_SAFE_INTEGER && 0 < maxBytes <= MAX_SAFE_INTEGER && expectedBytes <= maxBytes
  }

  /** What a write into a free object answers, from the length of what arrived before the stream ended or failed. */
  function Verdict(received: nat, sourceFails: bool, expectedBytes: int, maxBytes: int): WriteOutcome {
    if !SizesValid(expectedBytes, maxBytes) then WriteFailed(if expectedBytes > maxBytes then TooLarge else Mismatch)
    else if received > maxBytes then WriteFailed(TooLarge)
    else if sourceFails then WriteFailed(SourceFailed)
    else if received != expectedBytes then WriteFailed(Mismatch)
    else Written
  }

  /** Safe integers, a positive limit, and an expected size within it. */
  predicate SizesAllowed(expectedBytes: int, maxBytes: int) {
    0 <= expectedBytes <= maxBytes <= 9_007_199_254_740_991 && 1 <= maxBytes
  }

  /** The rows of one stored object. */
  ghost predicate StoredAs(chunks: map<ChunkKey, Bytes>, storageId: Id, parts: seq<Bytes>) {
    && (forall i :: 0 <= i < |parts| ==> ChunkKey(storageId, i) in chunks && chunks[ChunkKey(storageId, i)] == parts[i])
    && (forall key :: key in chunks && key.storageId == storageId ==> key.chunkIndex < |parts|)
  }

  ghost predicate OthersKept(before: map<ChunkKey, Bytes>, after: map<ChunkKey, Bytes>, storageId: Id) {
    forall key: ChunkKey :: key.storageId != storageId ==> (key in before <==> key in after) && (key in before ==> after[key] == before[key])
  }

  function Without(chunks: map<ChunkKey, Bytes>, storageId: Id): map<ChunkKey, Bytes> {
    map key | key in chunks && key.storageId != storageId :: chunks[key]
  }

  class PostgresAttachmentStorage {
    /** attachment_objects.byte_length and attachment_object_chunks.ciphertext. */
    var objects: map<Id, nat>
    var chunks: map<ChunkKey, Bytes>

    /** A chunk row references its object. */
    ghost predicate Referenced()
      reads this
    {
      forall key :: key in chunks ==> key.storageId in objects
    }

    constructor ()
      ensures objects == map[] && chunks == map[] && Referenced()
    {
      objects, chunks := map[], map[];
    }

    method Delete(storageId: Id)
      requires Referenced()
      modifies this
      ensures Referenced()
      ensures objects == old(objects) - {storageId} && chunks == Without(old(chunks), storageId)
    {
      objects := objects - {storageId};
      chunks := map key | key in chunks && key.storageId != storageId :: chunks[key];
    }

    method ValidateAttachmentSize(expectedBytes: int, maxBytes: int) returns (error: Option<SizeError>)
      ensures error.None? <==> SizesValid(expectedBytes, maxBytes)
      ensures error.None? <==> SizesAllowed(expectedBytes, maxBytes)
      ensures error.Some? ==> error.value == if expectedBytes > maxBytes then TooLarge else Mismatch
    {
      if expectedBytes > MAX_SAFE_INTEGER || expectedBytes < 0 || maxBytes > MAX_SAFE_INTEGER || maxBytes <= 0 || expectedBytes > maxBytes {
        return Some(if expectedBytes > maxBytes then TooLarge else Mismatch);
      }
      return None;
    }

    /**
     The outcome is decided by the total alone, and what is stored by the bytes alone: neither
     depends on how the stream was cut. A failed write leaves nothing behind, unless its cleanup
     fails too, and then nothing but rows of its own object; the first error is the one reported.
     */
    method Write(storageId: Id, source: seq<Bytes>, sourceFails: bool, expectedBytes: int, maxBytes: int, cleanupFails: bool)
        returns (outcome: WriteOutcome)
      requires Referenced()
      modifies this
      ensures Referenced()
      ensures outcome == if storageId in old(objects) && SizesValid(expectedBytes, maxBytes) then WriteFailed(StorageIdTaken)
                         else Verdict(|Concat(source)|, sourceFails, expectedBytes, maxBytes)
      ensures outcome.Written? <==>
        && storageId !in old(objects) && SizesAllowed(expectedBytes, maxBytes) && !sourceFails && |Concat(source)| == expectedBytes
      ensures outcome == WriteFailed(TooLarge) <==>
        expectedBytes > maxBytes || (storageId !in old(objects) && SizesAllowed(expectedBytes, maxBytes) && |Concat(source)| > maxBytes)
      ensures outcome == WriteFailed(SourceFailed) <==>
        storageId !in old(objects) && SizesAllowed(expectedBytes, maxBytes) && |Concat(source)| <= maxBytes && sourceFails
      ensures outcome == WriteFailed(StorageIdTaken) <==> storageId in old(objects) && SizesAllowed(expectedBytes, maxBytes)
      ensures outcome.Written? ==>
        && objects == old(objects)[storageId := expectedBytes as nat]
        && StoredAs(chunks, storageId, Canonical(Concat(source)))
        && OthersKept(old(chunks), chunks, storageId)
      ensures outcome.WriteFailed? && (!cleanupFails || storageId in old(objects)) ==> objects == old(objects) && chunks == old(chunks)
      ensures outcome.WriteFailed? ==> objects - {storageId} == old(objects) - {storageId} && OthersKept(old(chunks), chunks, storageId)
    {
      var invalid := ValidateAttachmentSize(expectedBytes, maxBytes);
      if invalid.Some? {
        return WriteFailed(invalid.value);
      }
      if storageId in objects {
        return WriteFailed(StorageIdTaken);
      }
      objects := objects[storageId := expectedBytes];
      NothingStoredYet(old(objects), old(chunks), storageId);
      outcome := Receive(storageId, source, sourceFails, expectedBytes, maxBytes);
      if outcome.WriteFailed? && !cleanupFails {
        Delete(storageId);
        assert objects == old(objects);
        assert chunks == old(chunks);
      }
    }

    /** The body of the try block. */
    method Receive(storageId: Id, source: seq<Bytes>, sourceFails: bool, expectedBytes: int, maxBytes: int)
        returns (outcome: WriteOutcome)
      requires Referenced() && storageId in objects && StoredAs(chunks, storageId, []) && SizesValid(expectedBytes, maxBytes)
      modifies this`chunks
      ensures Referenced() && OthersKept(old(chunks), chunks, storageId)
      ensures outcome == Verdict(|Concat(source)|, sourceFails, expectedBytes, maxBytes)
      ensures outcome.Written? ==> StoredAs(chunks, storageId, Canonical(Concat(source)))
    {
      hide StoredAs, Canonical;
      var byteLength := 0;
      var chunkIndex: nat, buffered: Bytes := 0, [];
      ghost var stored: seq<Bytes> := [];
      assert Concat(source[..0]) == [];
      for i := 0 to |source|
        invariant Buffering(this, storageId, stored, buffered, Concat(source[..i])) && chunkIndex == |stored|
        invariant OthersKept(old(chunks), chunks, storageId) && Referenced()
        invariant byteLength == |Concat(source[..i])| <= maxBytes
      {
        PrefixGrows(source, i);
        byteLength := byteLength + |source[i]|;
        if byteLength > maxBytes {
          LongerStill(source, i + 1);
          return WriteFailed(TooLarge);
        }
        chunkIndex, buffered, stored := Absorb(storageId, source[i], chunkIndex, buffered, stored, Concat(source[..i]));
      }
      assert source[..|source|] == source;
      if sourceFails {
        return WriteFailed(SourceFailed);
      }
      if byteLength != expectedBytes {
        return WriteFailed(Mismatch);
      }
      FullChunksAreCanonical(stored, buffered);
      if buffered != [] {
        FlushChunk(storageId, chunkIndex, buffered, stored);
      } else {
        assert stored + Tail(buffered) == stored;
      }
      return Written;
    }

    /** One fragment: cut it where the buffer fills up. */
    method Absorb(storageId: Id, fragment: Bytes, chunkIndexBefore: nat, bufferedBefore: Bytes,
        ghost storedBefore: seq<Bytes>, ghost received: Bytes)
      returns (chunkIndex: nat, buffered: Bytes, ghost stored: seq<Bytes>)
      requires Referenced() && storageId in objects
      requires Buffering(this, storageId, storedBefore, bufferedBefore, received) && chunkIndexBefore == |storedBefore|
      modifies this`chunks
      ensures Referenced() && OthersKept(old(chunks), chunks, storageId)
      ensures Buffering(this, storageId, stored, buffered, received + fragment) && chunkIndex == |stored|
    {
      hide StoredAs;
      chunkIndex, buffered, stored := chunkIndexBefore, bufferedBefore, storedBefore;
      var offset := 0;
      assert received + fragment[..0] == received;
      while offset < |fragment|
        invariant 0 <= offset <= |fragment|
        invariant Buffering(this, storageId, stored, buffered, received + fragment[..offset]) && chunkIndex == |stored|
        invariant OthersKept(old(chunks), chunks, storageId) && Referenced()
        decreases |fragment| - offset
      {
        var length := Min(CHUNK_BYTES - |buffered|, |fragment| - offset);
        assert received + fragment[..offset] + fragment[offset..offset + length] == received + fragment[..offset + length];
        ghost var consumed := received + fragment[..offset];
        assert Concat(stored) + (buffered + fragment[offset..offset + length]) == consumed + fragment[offset..offset + length];
        buffered := buffered + fragment[offset..offset + length];
        offset := offset + length;
        if |buffered| == CHUNK_BYTES {
          FlushChunk(storageId, chunkIndex, buffered, stored);
          ConcatAppend(stored, buffered);
          stored := stored + [buffered];
          chunkIndex, buffered := chunkIndex + 1, [];
        }
      }
      assert fragment[..offset] == fragment;
    }

    method FlushChunk(storageId: Id, chunkIndex: nat, buffered: Bytes, ghost stored: seq<Bytes>)
      requires Referenced() && storageId in objects && StoredAs(chunks, storageId, stored) && chunkIndex == |stored|
      modifies this`chunks
      ensures Referenced() && OthersKept(old(chunks), chunks, storageId)
      ensures StoredAs(chunks, storageId, stored + [buffered])
    {
      chunks := chunks[ChunkKey(storageId, chunkIndex) := buffered];
    }
  }

  /** Between fragments: full chunks in rows, less than one in the buffer, together what came in. */
  ghost predicate Buffering(storage: PostgresAttachmentStorage, storageId: Id, stored: seq<Bytes>, buffered: Bytes,
      received: Bytes)
    reads storage
  {
    && StoredAs(storage.chunks, storageId, stored)
    && (forall i :: 0 <= i < |stored| ==> |stored[i]| == CHUNK_BYTES)
    && |buffered| < CHUNK_BYTES
    && Concat(stored) + buffered == received
  }

  lemma NothingStoredYet(objects: map<Id, nat>, chunks: map<ChunkKey, Bytes>, storageId: Id)
    requires forall key :: key in chunks ==> key.storageId in objects
    requires storageId !in objects
    ensures StoredAs(chunks, storageId, []) && Without(chunks, storageId) == chunks
  {
  }

  lemma PrefixGrows(source: seq<Bytes>, i: nat)
    requires i < |source|
    ensures Concat(source[..i + 1]) == Concat(source[..i]) + source[i]
  {
    assert source[..i + 1][..i] == source[..i];
  }

  lemma {:induction false} LongerStill(source: seq<Bytes>, i: nat)
    requires i <= |source|
    ensures |Concat(source[..i])| <= |Concat(source)|
    decreases |source| - i
  {
    if i == |source| {
      assert source[..i] == source;
    } else {
      PrefixGrows(source, i);
      LongerStill(source, i + 1);
    }
  }

  // ----- reading -----

  /** The chunk rows of one object, by index. */
  function RowsOf(chunks: map<ChunkKey, Bytes>, storageId: Id): map<nat, Bytes> {
    map key | key in chunks && key.storageId == storageId :: key.chunkIndex := chunks[key]
  }

  function Sizes(rows: map<nat, Bytes>): map<nat, nat> { map i | i in rows :: |rows[i]| }

  ghost predicate LastIndexIs(rows: map<nat, Bytes>, last: int) {
    if rows == map[] then last == -1 else last in rows && forall i :: i in rows ==> i <= last
  }

  /** The query's verdict on an object: right total, and a greatest index one less than the count. */
  ghost predicate LooksComplete(rows: map<nat, Bytes>, byteLength: nat) {
    Total(Sizes(rows)) == byteLength && LastIndexIs(rows, |rows| - 1)
  }

  /** Count and greatest index alone rule out a gap, so the reader never meets a missing row. */
  lemma NoGap(rows: map<nat, Bytes>)
    requires LastIndexIs(rows, |rows| - 1)
    ensures rows.Keys == UpTo(|rows|)
  {
    assert |rows.Keys| == |rows|;
    Pigeonhole(rows.Keys, |rows|);
  }

  function InOrder(rows: map<nat, Bytes>, count: nat): (parts: seq<Bytes>)
    requires forall i :: 0 <= i < count ==> i in rows
    ensures |parts| == count && forall i :: 0 <= i < count ==> parts[i] == rows[i]
  {
    seq(count, i requires 0 <= i < count => rows[i])
  }

  lemma DropLast(rows: map<nat, Bytes>, last: nat)
    requires rows.Keys == UpTo(last + 1)
    ensures (rows - {last}).Keys == UpTo(last)
    ensures InOrder(rows, last + 1) == InOrder(rows - {last}, last) + [rows[last]]
    ensures Sizes(rows) - {last} == Sizes(rows - {last})
  {
  }

  lemma {:induction false} InOrderTotal(rows: map<nat, Bytes>, count: nat)
    requires rows.Keys == UpTo(count)
    ensures |Concat(InOrder(rows, count))| == Total(Sizes(rows))
  {
    hide Concat;
    if count == 0 {
      assert Sizes(rows) == map[] && InOrder(rows, 0) == [];
      NothingConcat();
    } else {
      var last: nat := count - 1;
      DropLast(rows, last);
      InOrderTotal(rows - {last}, last);
      ConcatAppend(InOrder(rows - {last}, last), rows[last]);
      TotalRemove<nat>(Sizes(rows), last);
    }
  }

  lemma NothingConcat()
    ensures Concat([]) == []
  {
  }

  /** Rows at exactly the first n indexes are the object's chunks in order. */
  lemma RowsAreStored(chunks: map<ChunkKey, Bytes>, storageId: Id, count: nat)
    requires RowsOf(chunks, storageId).Keys == UpTo(count)
    ensures StoredAs(chunks, storageId, InOrder(RowsOf(chunks, storageId), count))
  {
    forall key | key in chunks && key.storageId == storageId ensures key.chunkIndex < count {
      assert key.chunkIndex in RowsOf(chunks, storageId);
    }
    forall i: nat | i < count ensures ChunkKey(storageId, i) in chunks {
      assert i in RowsOf(chunks, storageId);
      var key :| key in chunks && key.storageId == storageId && key.chunkIndex == i;
      assert key == ChunkKey(storageId, i);
    }
  }

  /** read: the chunks in order, or a refusal; what is read always has the recorded length. */
  method Read(storage: PostgresAttachmentStorage, storageId: Id) returns (result: Result<seq<Bytes>>)
    ensures result.Ok? <==>
      (storageId in storage.objects && LooksComplete(RowsOf(storage.chunks, storageId), storage.objects[storageId]))
    ensures result.Ok? ==>
      && StoredAs(storage.chunks, storageId, result.value)
      && |Concat(result.value)| == storage.objects[storageId]
    ensures result.Err? && storageId in storage.objects ==>
      forall parts :: StoredAs(storage.chunks, storageId, parts) ==> |Concat(parts)| != storage.objects[storageId]
  {
    hide RowsOf, Sizes, StoredAs, Concat, InOrder;
    if storageId !in storage.objects {
      return Err("Attachment ciphertext not found");
    }
    forall parts | StoredAs(storage.chunks, storageId, parts)
      ensures LooksComplete(RowsOf(storage.chunks, storageId), |Concat(parts)|)
    {
      StoredLooksComplete(storage.chunks, storageId, parts);
    }
    var rows := RowsOf(storage.chunks, storageId);
    var storedBytes := SumSizes(rows);
    var lastIndex := GreatestIndex(rows);
    if storedBytes != storage.objects[storageId] || lastIndex != |rows| - 1 {
      return Err("Attachment ciphertext is incomplete");
    }
    NoGap(rows);
    InOrderTotal(rows, |rows|);
    RowsAreStored(storage.chunks, storageId, |rows|);
    var parts := ReadChunks(rows, |rows|);
    return Ok(parts);
  }

  method ReadChunks(rows: map<nat, Bytes>, chunkCount: nat) returns (parts: seq<Bytes>)
    requires forall i :: 0 <= i < chunkCount ==> i in rows
    ensures parts == InOrder(rows, chunkCount)
  {
    parts := [];
    for chunkIndex := 0 to chunkCount
      invariant parts == InOrder(rows, chunkIndex)
    {
      parts := parts + [rows[chunkIndex]];
    }
  }

  method SumSizes(rows: map<nat, Bytes>) returns (total: nat)
    ensures total == Total(Sizes(rows))
  {
    total := 0;
    var rest := Sizes(rows);
    while rest != map[]
      invariant total + Total(rest) == Total(Sizes(rows))
      decreases |rest|
    {
      var k :| k in rest;
      TotalRemove(rest, k);
      total := total + rest[k];
      rest := rest - {k};
    }
  }

  method GreatestIndex(rows: map<nat, Bytes>) returns (last: int)
    ensures LastIndexIs(rows, last)
  {
    last := -1;
    var rest := rows.Keys;
    while rest != {}
      invariant rest <= rows.Keys
      invariant -1 <= last && (last == -1 <==> rest == rows.Keys)
      invariant last != -1 ==> last in rows
      invariant forall i :: i in rows && i !in rest ==> i <= last
      decreases |rest|
    {
      var i :| i in rest;
      rest := rest - {i};
      if i > last {
        last := i;
      }
    }
  }

  /** Whatever was written is read back: the same bytes, whole, in the canonical cut. */
  lemma WrittenIsReadable(chunks: map<ChunkKey, Bytes>, storageId: Id, bytes: Bytes)
    requires StoredAs(chunks, storageId, Canonical(bytes))
    ensures LooksComplete(RowsOf(chunks, storageId), |bytes|)
    ensures forall parts :: StoredAs(chunks, storageId, parts) ==> parts == Canonical(bytes) && Concat(parts) == bytes
  {
    hide Canonical, Concat, StoredAs, RowsOf;
    var parts := Canonical(bytes);
    CanonicalShape(bytes);
    StoredLooksComplete(chunks, storageId, parts);
    forall other | StoredAs(chunks, storageId, other) ensures other == parts {
      SameRowsSameParts(chunks, storageId, parts, other);
    }
  }

  lemma StoredLooksComplete(chunks: map<ChunkKey, Bytes>, storageId: Id, parts: seq<Bytes>)
    requires StoredAs(chunks, storageId, parts)
    ensures LooksComplete(RowsOf(chunks, storageId), |Concat(parts)|)
  {
    hide StoredAs, Concat, RowsOf;
    var rows := RowsOf(chunks, storageId);
    RowsAreParts(chunks, storageId, parts);
    UpToSize(|parts|);
    assert |rows| == |rows.Keys|;
    InOrderTotal(rows, |parts|);
    assert InOrder(rows, |parts|) == parts;
  }

  /** The rows determine the chunks. */
  lemma SameRowsSameParts(chunks: map<ChunkKey, Bytes>, storageId: Id, a: seq<Bytes>, b: seq<Bytes>)
    requires StoredAs(chunks, storageId, a) && StoredAs(chunks, storageId, b)
    ensures a == b
  {
    hide StoredAs, RowsOf;
    RowsAreParts(chunks, storageId, a);
    RowsAreParts(chunks, storageId, b);
    UpToSize(|a|);
    UpToSize(|b|);
  }

  lemma RowsAreParts(chunks: map<ChunkKey, Bytes>, storageId: Id, parts: seq<Bytes>)
    requires StoredAs(chunks, storageId, parts)
    ensures RowsOf(chunks, storageId).Keys == UpTo(|parts|)
    ensures forall i :: 0 <= i < |parts| ==> RowsOf(chunks, storageId)[i] == parts[i]
  {
    var rows := RowsOf(chunks, storageId);
    forall i: nat ensures i in rows <==> i < |parts| {
      if i < |parts| {
        assert ChunkKey(storageId, i) in chunks;
      }
    }
  }
}
