/**
 Chunked content encryption (crypto/content.ts): split, seal and name on the way out, verify,
 open and reassemble on the way in. The cipher and the hashes are ideal and passed in.
 */
module ContentCodec {
  import opened Basics
  import opened Encoding
  import opened ManifestText
  import opened Sorting
  import opened SectionHistory
  import Base64

  const AUTH_BYTES: nat := 16
  const NONCE_BYTES: nat := 24
  const MAX_CHUNKS: nat := 1_000_000
  const MAX_SAFE_INTEGER: nat := 9007199254740991

  /** Whom, where and what a content belongs to: the context every chunk is bound to. */
  datatype Identity = Identity(
    cryptoOwnerId: Id, noteId: Id, sectionId: SectionRef, keyEpoch: nat, updateId: Id, uploadId: Id,
    kind: Kind, checkpointSequenceCutoff: Option<nat>)

  datatype Context = Context(identity: Identity, chunkIndex: int, chunkCount: int, totalCipherBytes: int)

  datatype Crypto = Crypto(
    byteHash: Bytes -> string,
    textHash: string -> string,
    seal: (Id, Bytes, Context, Bytes) -> Bytes,
    open: (Id, Bytes, Context, Bytes) -> Option<Bytes>)

  /** Collision-free hashes with hexadecimal digests, and an AEAD that adds sixteen bytes. */
  ghost predicate Ideal(crypto: Crypto) {
    && (forall a, b :: crypto.byteHash(a) == crypto.byteHash(b) ==> a == b)
    && (forall a :: ':' !in crypto.byteHash(a) && '\n' !in crypto.byteHash(a) && IsAscii(crypto.byteHash(a)))
    && (forall a, b :: IsAscii(a) && IsAscii(b) && crypto.textHash(a) == crypto.textHash(b) ==> a == b)
    && (forall k, n, c, p :: crypto.open(k, n, c, crypto.seal(k, n, c, p)) == Some(p))
    && (forall k, n, c, e :: crypto.open(k, n, c, e).Some? ==> |crypto.open(k, n, c, e).value| + AUTH_BYTES == |e|)
  }

  datatype Chunk = Chunk(chunkIndex: int, cipherBytes: Bytes, cipherHash: string, nonce: string)

  datatype Prepared = Prepared(identity: Identity, totalCipherBytes: nat, chunkCount: nat, manifestHash: string, chunks: seq<Chunk>)

  /** What a manifest says about its content. */
  datatype Claim = Claim(identity: Identity, totalCipherBytes: int, chunkCount: int, manifestHash: string)

  predicate ContextValid(c: Context) {
    && 0 <= c.chunkIndex < c.chunkCount
    && 0 < c.totalCipherBytes
    && (c.identity.kind.Checkpoint? <==> c.identity.checkpointSequenceCutoff.Some?)
  }

  function IndexOf(): Chunk -> int { (c: Chunk) => c.chunkIndex }

  function Describe(c: Chunk): Descriptor {
    Descriptor(if c.chunkIndex >= 0 then c.chunkIndex else 0, |c.cipherBytes|, c.cipherHash, c.nonce)
  }

  function DescribeAll(chunks: seq<Chunk>): (ds: seq<Descriptor>)
    ensures |ds| == |chunks| && forall i :: 0 <= i < |ds| ==> ds[i] == Describe(chunks[i])
  {
    seq(|chunks|, i requires 0 <= i < |chunks| => Describe(chunks[i]))
  }

  function ManifestHash(crypto: Crypto, chunks: seq<Chunk>): string {
    crypto.textHash(Lines(DescribeAll(SortBy(chunks, IndexOf()))))
  }

  // ----- encryption -----

  function CeilDiv(a: nat, b: nat): nat
    requires b > 0
  {
    (a + b - 1) / b
  }

  function ChunkCount(length: nat, size: nat): nat
    requires size > 0
  {
    Max(1, CeilDiv(length, size))
  }

  /** Uint8Array.slice clamps both ends. */
  function Window(plaintext: Bytes, start: nat, size: nat): (w: Bytes)
    ensures |w| <= size
  {
    plaintext[Min(start, |plaintext|)..Min(start + size, |plaintext|)]
  }

  function Slice(plaintext: Bytes, size: nat, index: nat): (s: Bytes)
    ensures |s| <= size
  {
    Window(plaintext, index * size, size)
  }

  function SealChunk(crypto: Crypto, key: Id, context: Context, plaintext: Bytes, nonce: Bytes): Chunk {
    var cipher := crypto.seal(key, nonce, context, plaintext);
    Chunk(context.chunkIndex, cipher, crypto.byteHash(cipher), Base64.Encode(nonce))
  }

  predicate Refused(identity: Identity, length: nat, maxCipherChunkBytes: int) {
    || maxCipherChunkBytes <= AUTH_BYTES || maxCipherChunkBytes > MAX_SAFE_INTEGER
    || (identity.kind.Checkpoint? != identity.checkpointSequenceCutoff.Some?)
    || ChunkCount(length, maxCipherChunkBytes - AUTH_BYTES) > MAX_CHUNKS
  }

  /** The sealed chunks of a plaintext, one per slice, in order. */
  ghost predicate IsPrepared(crypto: Crypto, key: Id, identity: Identity, plaintext: Bytes, maxCipherChunkBytes: int,
                             nonces: nat -> Bytes, prepared: Prepared)
  {
    && maxCipherChunkBytes > AUTH_BYTES
    && var size := maxCipherChunkBytes - AUTH_BYTES;
    && var count := ChunkCount(|plaintext|, size);
    && var total := |plaintext| + count * AUTH_BYTES;
    && prepared.identity == identity
    && prepared.chunkCount == count
    && prepared.totalCipherBytes == total
    && |prepared.chunks| == count
    && prepared.manifestHash == ManifestHash(crypto, prepared.chunks)
    && (forall i :: 0 <= i < count ==>
          prepared.chunks[i] == SealChunk(crypto, key, Context(identity, i, count, total), Slice(plaintext, size, i), nonces(i)))
  }

  method EncryptContentChunks(crypto: Crypto, key: Id, identity: Identity, plaintext: Bytes, maxCipherChunkBytes: int,
      nonces: nat -> Bytes)
    returns (result: Result<Prepared>)
    requires Ideal(crypto)
    ensures result.Ok? <==> !Refused(identity, |plaintext|, maxCipherChunkBytes)
    ensures result.Ok? ==> IsPrepared(crypto, key, identity, plaintext, maxCipherChunkBytes, nonces, result.value)
  {
    hide Ideal, Slice, SealChunk, ManifestHash, CeilDiv;
    if maxCipherChunkBytes <= AUTH_BYTES || maxCipherChunkBytes > MAX_SAFE_INTEGER {
      return Err("Invalid encrypted content chunk limit");
    }
    if identity.kind.Checkpoint? != identity.checkpointSequenceCutoff.Some? {
      return Err("Invalid checkpoint sequence cutoff");
    }
    var size := maxCipherChunkBytes - AUTH_BYTES;
    var count := ChunkCount(|plaintext|, size);
    if count > MAX_CHUNKS {
      return Err("Encrypted content requires too many chunks");
    }
    var total := |plaintext| + count * AUTH_BYTES;
    var chunks: seq<Chunk> := [];
    for chunkIndex := 0 to count
      invariant |chunks| == chunkIndex
      invariant forall i :: 0 <= i < chunkIndex ==>
        chunks[i] == SealChunk(crypto, key, Context(identity, i, count, total), Slice(plaintext, size, i), nonces(i))
    {
      var chunk := SealOne(crypto, key, Context(identity, chunkIndex, count, total), Slice(plaintext, size, chunkIndex),
                           nonces(chunkIndex), maxCipherChunkBytes);
      if chunk.Err? {
        assert false;
        return Err("Encrypted content chunk exceeds the configured limit");
      }
      chunks := chunks + [chunk.value];
    }
    return Ok(Prepared(identity, total, count, ManifestHash(crypto, chunks), chunks));
  }

  /** Seal one slice; the limit is checked although an ideal cipher never exceeds it. */
  method SealOne(crypto: Crypto, key: Id, context: Context, slice: Bytes, nonce: Bytes, maxCipherChunkBytes: int)
    returns (chunk: Result<Chunk>)
    requires Ideal(crypto)
    ensures chunk.Ok? <==> |slice| + AUTH_BYTES <= maxCipherChunkBytes
    ensures chunk.Ok? ==> chunk.value == SealChunk(crypto, key, context, slice, nonce)
  {
    var cipher := crypto.seal(key, nonce, context, slice);
    SealedLength(crypto, key, nonce, context, slice);
    if |cipher| > maxCipherChunkBytes {
      return Err("Encrypted content chunk exceeds the configured limit");
    }
    return Ok(Chunk(context.chunkIndex, cipher, crypto.byteHash(cipher), Base64.Encode(nonce)));
  }

  lemma SealedLength(crypto: Crypto, key: Id, nonce: Bytes, context: Context, plaintext: Bytes)
    requires Ideal(crypto)
    ensures |crypto.seal(key, nonce, context, plaintext)| == |plaintext| + AUTH_BYTES
  {
    var unsealed := crypto.open(key, nonce, context, crypto.seal(key, nonce, context, plaintext));
    assert unsealed == Some(plaintext);
  }

  // ----- decryption -----

  function ConcatBytes(parts: seq<Bytes>): Bytes {
    if parts == [] then [] else ConcatBytes(parts[..|parts| - 1]) + parts[|parts| - 1]
  }

  function CipherTotal(chunks: seq<Chunk>): nat {
    if chunks == [] then 0 else CipherTotal(chunks[..|chunks| - 1]) + |chunks[|chunks| - 1].cipherBytes|
  }

  predicate Complete(sorted: seq<Chunk>, claim: Claim) {
    && |sorted| == claim.chunkCount
    && (forall i :: 0 <= i < |sorted| ==> sorted[i].chunkIndex == i)
    && CipherTotal(sorted) == claim.totalCipherBytes
  }

  predicate HashesMatch(crypto: Crypto, sorted: seq<Chunk>) {
    forall i :: 0 <= i < |sorted| ==> crypto.byteHash(sorted[i].cipherBytes) == sorted[i].cipherHash
  }

  /** decryptBytes: the envelope's own checks, then the AEAD. */
  function OpenChunk(crypto: Crypto, key: Id, claim: Claim, chunk: Chunk): Option<Bytes> {
    var context := Context(claim.identity, chunk.chunkIndex, claim.chunkCount, claim.totalCipherBytes);
    var nonce := Base64.FromCanonical(chunk.nonce);
    if !ContextValid(context) || chunk.cipherBytes == [] || nonce.None? || |nonce.value| != NONCE_BYTES then None
    else crypto.open(key, nonce.value, context, chunk.cipherBytes)
  }

  predicate AllOpen(crypto: Crypto, key: Id, claim: Claim, sorted: seq<Chunk>) {
    forall i :: 0 <= i < |sorted| ==> OpenChunk(crypto, key, claim, sorted[i]).Some?
  }

  function Openings(crypto: Crypto, key: Id, claim: Claim, sorted: seq<Chunk>): seq<Bytes>
    requires AllOpen(crypto, key, claim, sorted)
  {
    seq(|sorted|, i requires 0 <= i < |sorted| => OpenChunk(crypto, key, claim, sorted[i]).value)
  }

  /** Which chunk lists are accepted against a claim. */
  predicate Accepts(crypto: Crypto, key: Id, claim: Claim, chunks: seq<Chunk>) {
    var sorted := SortBy(chunks, IndexOf());
    && Complete(sorted, claim)
    && HashesMatch(crypto, sorted)
    && crypto.textHash(Lines(DescribeAll(sorted))) == claim.manifestHash
    && AllOpen(crypto, key, claim, sorted)
  }

  function Plaintext(crypto: Crypto, key: Id, claim: Claim, chunks: seq<Chunk>): Bytes
    requires Accepts(crypto, key, claim, chunks)
  {
    ConcatBytes(Openings(crypto, key, claim, SortBy(chunks, IndexOf())))
  }

  lemma {:induction false} OpeningsLength(crypto: Crypto, key: Id, claim: Claim, sorted: seq<Chunk>)
    requires Ideal(crypto) && AllOpen(crypto, key, claim, sorted)
    ensures |ConcatBytes(Openings(crypto, key, claim, sorted))| + |sorted| * AUTH_BYTES == CipherTotal(sorted)
  {
    if sorted != [] {
      var init := sorted[..|sorted| - 1];
      OpeningsLength(crypto, key, claim, init);
      var parts := Openings(crypto, key, claim, sorted);
      assert parts[..|parts| - 1] == Openings(crypto, key, claim, init);
      assert OpenChunk(crypto, key, claim, sorted[|sorted| - 1]).Some?;
    }
  }

  /** Reassembly into a fixed buffer: what is accepted is exactly `Accepts`. */
  method DecryptContentChunks(crypto: Crypto, key: Id, claim: Claim, input: seq<Chunk>) returns (result: Result<Bytes>)
    requires Ideal(crypto)
    ensures result.Ok? <==> Accepts(crypto, key, claim, input)
    ensures result.Ok? ==> result.value == Plaintext(crypto, key, claim, input)
  {
    var chunks := SortBy(input, IndexOf());
    if |chunks| != claim.chunkCount || (exists i :: 0 <= i < |chunks| && chunks[i].chunkIndex != i)
       || CipherTotal(chunks) != claim.totalCipherBytes {
      return Err("Encrypted content chunk set is incomplete");
    }
    var k := 0;
    while k < |chunks|
      invariant 0 <= k <= |chunks|
      invariant forall i :: 0 <= i < k ==> crypto.byteHash(chunks[i].cipherBytes) == chunks[i].cipherHash
    {
      if crypto.byteHash(chunks[k].cipherBytes) != chunks[k].cipherHash {
        return Err("Encrypted content chunk hash mismatch");
      }
      k := k + 1;
    }
    var digest := crypto.textHash(Lines(DescribeAll(chunks)));
    if digest != claim.manifestHash {
      return Err("Encrypted content manifest mismatch");
    }
    result := Reassemble(crypto, key, claim, chunks);
  }

  method Reassemble(crypto: Crypto, key: Id, claim: Claim, chunks: seq<Chunk>) returns (result: Result<Bytes>)
    requires Ideal(crypto) && Complete(chunks, claim)
    ensures result.Ok? <==> AllOpen(crypto, key, claim, chunks)
    ensures result.Ok? ==> result.value == ConcatBytes(Openings(crypto, key, claim, chunks))
  {
    hide Ideal, OpenChunk, ConcatBytes, Complete;
    if AllOpen(crypto, key, claim, chunks) {
      OpeningsLength(crypto, key, claim, chunks);
    }
    CompleteCount(chunks, claim);
    EmptyOpenings(crypto, key, claim);
    var plaintextBytes := claim.totalCipherBytes - claim.chunkCount * AUTH_BYTES;
    if plaintextBytes < 0 {
      return Err("Invalid encrypted content length");
    }
    var plaintext := new Byte[plaintextBytes](_ => 0);
    var offset := 0;
    var k := 0;
    while k < |chunks|
      invariant 0 <= k <= |chunks| && 0 <= offset <= plaintext.Length
      invariant AllOpen(crypto, key, claim, chunks[..k])
      invariant plaintext[..offset] == ConcatBytes(Openings(crypto, key, claim, chunks[..k]))
    {
      var unsealed := OpenChunk(crypto, key, claim, chunks[k]);
      if unsealed.None? {
        return Err("Encrypted content chunk could not be unsealed");
      }
      ExtendOpenings(crypto, key, claim, chunks, k);
      if offset + |unsealed.value| > plaintext.Length {
        if AllOpen(crypto, key, claim, chunks) {
          OverrunMeansUnopened(crypto, key, claim, chunks, k + 1);
        }
        return Err("Decrypted content chunk is out of range");
      }
      SetAt(plaintext, offset, unsealed.value);
      offset := offset + |unsealed.value|;
      k := k + 1;
    }
    assert chunks[..k] == chunks;
    assert Openings(crypto, key, claim, chunks[..k]) == Openings(crypto, key, claim, chunks);
    if offset != plaintext.Length {
      return Err("Decrypted content length mismatch");
    }
    assert plaintext[..] == plaintext[..offset];
    return Ok(plaintext[..]);
  }

  /** Uint8Array.set within bounds. */
  method SetAt(buffer: array<Byte>, offset: nat, bytes: Bytes)
    requires offset + |bytes| <= buffer.Length
    modifies buffer
    ensures buffer[..offset + |bytes|] == old(buffer[..offset]) + bytes
  {
    forall i | 0 <= i < |bytes| {
      buffer[offset + i] := bytes[i];
    }
  }

  lemma CompleteCount(chunks: seq<Chunk>, claim: Claim)
    requires Complete(chunks, claim)
    ensures |chunks| == claim.chunkCount && CipherTotal(chunks) == claim.totalCipherBytes
  {
  }

  lemma EmptyOpenings(crypto: Crypto, key: Id, claim: Claim)
    ensures ConcatBytes(Openings(crypto, key, claim, [])) == []
  {
  }

  lemma ExtendOpenings(crypto: Crypto, key: Id, claim: Claim, chunks: seq<Chunk>, k: nat)
    requires k < |chunks| && AllOpen(crypto, key, claim, chunks[..k]) && OpenChunk(crypto, key, claim, chunks[k]).Some?
    ensures AllOpen(crypto, key, claim, chunks[..k + 1])
    ensures ConcatBytes(Openings(crypto, key, claim, chunks[..k + 1]))
      == ConcatBytes(Openings(crypto, key, claim, chunks[..k])) + OpenChunk(crypto, key, claim, chunks[k]).value
  {
    hide OpenChunk;
    var longer := chunks[..k + 1];
    assert longer == chunks[..k] + [chunks[k]];
    assert AllOpen(crypto, key, claim, longer);
    var parts := Openings(crypto, key, claim, longer);
    assert parts[..k] == Openings(crypto, key, claim, chunks[..k]);
  }

  /** The buffer is only too small for a list that does not open as a whole. */
  lemma {:induction false} OverrunMeansUnopened(crypto: Crypto, key: Id, claim: Claim, chunks: seq<Chunk>, k: nat)
    requires Ideal(crypto) && k <= |chunks| && AllOpen(crypto, key, claim, chunks)
    ensures |ConcatBytes(Openings(crypto, key, claim, chunks[..k]))| + |chunks| * AUTH_BYTES <= CipherTotal(chunks)
    decreases |chunks| - k
  {
    if k == |chunks| {
      assert chunks[..k] == chunks;
      OpeningsLength(crypto, key, claim, chunks);
    } else {
      OverrunMeansUnopened(crypto, key, claim, chunks, k + 1);
      assert AllOpen(crypto, key, claim, chunks[..k]);
      ExtendOpenings(crypto, key, claim, chunks, k);
    }
  }
}
