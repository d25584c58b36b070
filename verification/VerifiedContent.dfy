/**
 What the chunk codec guarantees: the round trip, that a manifest determines its content,
 and that both sides compute the same manifest hash.
 */
module VerifiedContent {
  import opened Basics
  import opened Encoding
  import opened ManifestText
  import opened Sorting
  import opened SectionHistory
  import opened ContentCodec
  import Base64

  // ----- the assumption on the cryptography can be met -----

  function ToyCrypto(): Crypto {
    Crypto((b: Bytes) => Base64.Encode(b), (s: string) => s,
           (k: Id, n: Bytes, c: Context, p: Bytes) => p + seq(AUTH_BYTES, _ => 0),
           (k: Id, n: Bytes, c: Context, e: Bytes) => if |e| >= AUTH_BYTES then Some(e[..|e| - AUTH_BYTES]) else None)
  }

  /** The ideal assumption is consistent: an injective text code and plain padding meet it. */
  lemma IdealExists()
    ensures Ideal(ToyCrypto())
  {
    var crypto := ToyCrypto();
    forall a, b | crypto.byteHash(a) == crypto.byteHash(b) ensures a == b {
      Base64.DecodeEncode(a);
      Base64.DecodeEncode(b);
    }
    forall a ensures ':' !in crypto.byteHash(a) && '\n' !in crypto.byteHash(a) && IsAscii(crypto.byteHash(a)) {
      assert crypto.byteHash(a) == Base64.Encode(a);
      Base64IsClean(Base64.Encode(a));
    }
    forall k, n, c, p ensures crypto.open(k, n, c, crypto.seal(k, n, c, p)) == Some(p) {
      var e := crypto.seal(k, n, c, p);
      assert e[..|e| - AUTH_BYTES] == p;
    }
  }

  // ----- slices partition the plaintext -----

  function Pieces(plaintext: Bytes, size: nat, count: nat): seq<Bytes> {
    seq(count, i requires 0 <= i < count => Slice(plaintext, size, i))
  }

  lemma WindowExtends(plaintext: Bytes, start: nat, size: nat)
    ensures plaintext[..Min(start, |plaintext|)] + Window(plaintext, start, size) == plaintext[..Min(start + size, |plaintext|)]
  {
  }

  lemma Multiples(n: nat, size: nat)
    ensures 0 <= n * size && (n + 1) * size == n * size + size
  {
  }

  lemma {:induction false} PiecesPrefix(plaintext: Bytes, size: nat, count: nat)
    ensures ConcatBytes(Pieces(plaintext, size, count)) == plaintext[..Min(count * size, |plaintext|)]
  {
    hide Window;
    if count > 0 {
      PiecesPrefix(plaintext, size, count - 1);
      var parts := Pieces(plaintext, size, count);
      assert parts[..count - 1] == Pieces(plaintext, size, count - 1);
      Multiples(count - 1, size);
      WindowExtends(plaintext, (count - 1) * size, size);
    } else {
      assert Pieces(plaintext, size, count) == [];
    }
  }

  /** ceil(a / b) is the least number of b's that reach a. */
  lemma CeilDivBounds(a: nat, b: nat)
    requires b > 0
    ensures CeilDiv(a, b) * b >= a
    ensures a > 0 ==> CeilDiv(a, b) > 0 && (CeilDiv(a, b) - 1) * b < a
  {
    var q, r := (a + b - 1) / b, (a + b - 1) % b;
    assert a + b - 1 == q * b + r;
    assert q * b == (q - 1) * b + b;
    assert q <= 0 ==> q * b <= 0;
  }

  lemma MultiplesOrdered(i: nat, n: nat, size: nat)
    requires i <= n
    ensures i * size <= n * size
  {
  }

  lemma WindowInside(plaintext: Bytes, start: nat, size: nat)
    ensures start + size <= |plaintext| ==> |Window(plaintext, start, size)| == size
    ensures size > 0 ==> (Window(plaintext, start, size) == [] <==> start >= |plaintext|)
  {
  }

  lemma FullSlice(plaintext: Bytes, size: nat, i: nat)
    requires size > 0 && i + 1 < ChunkCount(|plaintext|, size)
    ensures |Slice(plaintext, size, i)| == size
  {
    hide Window;
    var count := ChunkCount(|plaintext|, size);
    CeilDivBounds(|plaintext|, size);
    MultiplesOrdered(i + 1, count - 1, size);
    Multiples(i, size);
    WindowInside(plaintext, i * size, size);
  }

  lemma LastSlice(plaintext: Bytes, size: nat)
    requires size > 0
    ensures Slice(plaintext, size, ChunkCount(|plaintext|, size) - 1) == [] <==> plaintext == []
  {
    hide Window;
    var count := ChunkCount(|plaintext|, size);
    CeilDivBounds(|plaintext|, size);
    Multiples(count - 1, size);
    WindowInside(plaintext, (count - 1) * size, size);
  }

  /**
   The slices put back together are the plaintext; all but the last are full, and the last
   one is empty only for an empty plaintext.
   */
  lemma SlicesPartition(plaintext: Bytes, size: nat)
    requires size > 0
    ensures var count := ChunkCount(|plaintext|, size);
      && ConcatBytes(Pieces(plaintext, size, count)) == plaintext
      && (forall i: nat :: i + 1 < count ==> |Slice(plaintext, size, i)| == size)
      && (Slice(plaintext, size, count - 1) == [] <==> plaintext == [])
  {
    hide Slice, ConcatBytes;
    var count := ChunkCount(|plaintext|, size);
    PiecesPrefix(plaintext, size, count);
    CeilDivBounds(|plaintext|, size);
    MultiplesOrdered(CeilDiv(|plaintext|, size), count, size);
    LastSlice(plaintext, size);
    forall i: nat | i + 1 < count ensures |Slice(plaintext, size, i)| == size {
      FullSlice(plaintext, size, i);
    }
  }

  // ----- round trip -----

  ghost predicate SealedFrom(crypto: Crypto, key: Id, identity: Identity, plaintext: Bytes, max: int, nonces: nat -> Bytes, p: Prepared) {
    IsPrepared(crypto, key, identity, plaintext, max, nonces, p) && !Refused(identity, |plaintext|, max)
    && forall i :: |nonces(i)| == NONCE_BYTES
  }

  function ClaimOf(p: Prepared): Claim {
    Claim(p.identity, p.totalCipherBytes, p.chunkCount, p.manifestHash)
  }

  lemma {:induction false} PieceTotal(chunks: seq<Chunk>, plaintext: Bytes, size: nat)
    requires forall i :: 0 <= i < |chunks| ==> |chunks[i].cipherBytes| == |Slice(plaintext, size, i)| + AUTH_BYTES
    ensures CipherTotal(chunks) == |plaintext[..Min(|chunks| * size, |plaintext|)]| + |chunks| * AUTH_BYTES
  {
    hide Window;
    if chunks != [] {
      var n := |chunks| - 1;
      PieceTotal(chunks[..n], plaintext, size);
      Multiples(n, size);
      WindowExtends(plaintext, n * size, size);
      assert |chunks[n].cipherBytes| == |Slice(plaintext, size, n)| + AUTH_BYTES;
    }
  }

  lemma PreparedChunkOpens(crypto: Crypto, key: Id, identity: Identity, plaintext: Bytes, max: int,
      nonces: nat -> Bytes, p: Prepared, i: nat)
    requires Ideal(crypto) && SealedFrom(crypto, key, identity, plaintext, max, nonces, p) && i < |p.chunks|
    ensures OpenChunk(crypto, key, ClaimOf(p), p.chunks[i]) == Some(Slice(plaintext, max - AUTH_BYTES, i))
    ensures |p.chunks[i].cipherBytes| == |Slice(plaintext, max - AUTH_BYTES, i)| + AUTH_BYTES <= max
    ensures p.chunks[i].chunkIndex == i
  {
    hide Ideal, Slice, ChunkCount;
    var context := Context(identity, i, p.chunkCount, p.totalCipherBytes);
    var slice := Slice(plaintext, max - AUTH_BYTES, i);
    assert p.chunks[i] == SealChunk(crypto, key, context, slice, nonces(i));
    SealedLength(crypto, key, nonces(i), context, slice);
    Base64.CanonicalIffEncoding(p.chunks[i].nonce, nonces(i));
    SealOpens(crypto, key, nonces(i), context, slice);
  }

  /** The bytes from this start, as many as a piece has, or as are left. */
  function Piece(plaintext: Bytes, start: nat, size: nat): Bytes {
    if |plaintext| <= start then [] else if |plaintext| <= start + size then plaintext[start..] else plaintext[start..start + size]
  }

  lemma SliceIsPiece(plaintext: Bytes, size: nat, i: nat)
    ensures 0 <= i * size && Slice(plaintext, size, i) == Piece(plaintext, i * size, size)
  {
    Multiples(i, size);
  }

  /** Every prepared chunk is its piece sealed for exactly its identity, place, count and total, under its own nonce. */
  lemma ChunkIsBound(crypto: Crypto, key: Id, identity: Identity, plaintext: Bytes, max: int, nonces: nat -> Bytes, p: Prepared, i: nat)
    requires SealedFrom(crypto, key, identity, plaintext, max, nonces, p) && i < |p.chunks|
    ensures 16 <= max && 0 <= i * (max - 16)
    ensures p.chunks[i].cipherBytes
      == crypto.seal(key, nonces(i), Context(identity, i, p.chunkCount, p.totalCipherBytes), Piece(plaintext, i * (max - 16), max - 16))
    ensures p.chunks[i].cipherHash == crypto.byteHash(p.chunks[i].cipherBytes)
    ensures Base64.FromCanonical(p.chunks[i].nonce) == Some(nonces(i)) && p.chunks[i].chunkIndex == i
  {
    hide Slice, Piece, ChunkCount, ManifestHash, Refused, Base64.Encode, Base64.FromCanonical;
    SliceIsPiece(plaintext, max - AUTH_BYTES, i);
    Base64.CanonicalIffEncoding(p.chunks[i].nonce, nonces(i));
  }

  /**
   A chunk whose ciphertext opens under no context but its own is accepted nowhere else: not at another
   place, nor for another note, section, epoch, update, upload, kind, count or total.
   */
  lemma ChunkOpensOnlyInPlace(crypto: Crypto, key: Id, identity: Identity, plaintext: Bytes, max: int, nonces: nat -> Bytes, p: Prepared,
      i: nat, claim: Claim, moved: Chunk)
    requires SealedFrom(crypto, key, identity, plaintext, max, nonces, p) && i < |p.chunks|
    requires moved.cipherBytes == p.chunks[i].cipherBytes && moved.nonce == p.chunks[i].nonce
    requires forall d :: crypto.open(key, nonces(i), d, p.chunks[i].cipherBytes).Some? ==> d == Context(identity, i, p.chunkCount, p.totalCipherBytes)
    ensures OpenChunk(crypto, key, claim, moved).Some? ==>
      claim.identity == identity && moved.chunkIndex == i && claim.chunkCount == p.chunkCount && claim.totalCipherBytes == p.totalCipherBytes
  {
    hide SealedFrom;
    ChunkIsBound(crypto, key, identity, plaintext, max, nonces, p, i);
  }

  lemma SealOpens(crypto: Crypto, key: Id, nonce: Bytes, context: Context, plaintext: Bytes)
    requires Ideal(crypto)
    ensures crypto.open(key, nonce, context, crypto.seal(key, nonce, context, plaintext)) == Some(plaintext)
  {
  }

  /** What is refused: a limit that leaves no room or is no safe integer, a cutoff without a checkpoint or the reverse, more than a million chunks. */
  lemma RefusedIff(identity: Identity, length: nat, max: int)
    ensures !Refused(identity, length, max)
      <==> (16 < max <= 9_007_199_254_740_991 && (identity.kind == Checkpoint <==> identity.checkpointSequenceCutoff != None)
            && length <= 1_000_000 * (max - 16))
  {
    if 16 < max {
      ManyChunks(length, max - 16, 1_000_000);
    }
  }

  lemma ManyChunks(length: nat, size: nat, count: nat)
    requires size > 0 && count > 0
    ensures ChunkCount(length, size) <= count <==> length <= count * size
  {
    CeilDivBounds(length, size);
    var q := CeilDiv(length, size);
    if q <= count {
      MultiplesOrdered(q, count, size);
    } else {
      MultiplesOrdered(count, q - 1, size);
    }
  }

  /** The slices reach the end of the plaintext. */
  lemma SlicesReachEnd(plaintext: Bytes, size: nat)
    requires size > 0
    ensures Min(ChunkCount(|plaintext|, size) * size, |plaintext|) == |plaintext|
  {
    CeilDivBounds(|plaintext|, size);
    MultiplesOrdered(CeilDiv(|plaintext|, size), ChunkCount(|plaintext|, size), size);
  }

  lemma PreparedCounts(crypto: Crypto, key: Id, identity: Identity, plaintext: Bytes, max: int, nonces: nat -> Bytes,
      p: Prepared)
    requires Ideal(crypto) && SealedFrom(crypto, key, identity, plaintext, max, nonces, p)
    ensures CipherTotal(p.chunks) == p.totalCipherBytes
  {
    hide Ideal, Slice, ChunkCount, CipherTotal, ManifestHash, SealChunk, OpenChunk, Refused, Min;
    forall i | 0 <= i < |p.chunks|
      ensures |p.chunks[i].cipherBytes| == |Slice(plaintext, max - AUTH_BYTES, i)| + AUTH_BYTES
    {
      PreparedChunkOpens(crypto, key, identity, plaintext, max, nonces, p, i);
    }
    PieceTotal(p.chunks, plaintext, max - AUTH_BYTES);
    SlicesReachEnd(plaintext, max - AUTH_BYTES);
  }

  /**
   Round trip: whatever order the chunks of a prepared content arrive in, they are accepted
   against its claim and give the plaintext back; no chunk exceeds the limit.
   */
  lemma RoundTrip(crypto: Crypto, key: Id, identity: Identity, plaintext: Bytes, max: int, nonces: nat -> Bytes,
      p: Prepared, shuffled: seq<Chunk>)
    requires Ideal(crypto) && SealedFrom(crypto, key, identity, plaintext, max, nonces, p)
    requires multiset(shuffled) == multiset(p.chunks)
    ensures forall i :: 0 <= i < |p.chunks| ==> |p.chunks[i].cipherBytes| <= max
    ensures CipherTotal(p.chunks) == p.totalCipherBytes
    ensures Accepts(crypto, key, ClaimOf(p), shuffled)
    ensures Plaintext(crypto, key, ClaimOf(p), shuffled) == plaintext
  {
    hide Ideal, OpenChunk, Lines, SortBy, CipherTotal, Slice, Refused;
    var size := max - AUTH_BYTES;
    forall i | 0 <= i < |p.chunks|
      ensures OpenChunk(crypto, key, ClaimOf(p), p.chunks[i]) == Some(Slice(plaintext, size, i))
      ensures |p.chunks[i].cipherBytes| <= max && p.chunks[i].chunkIndex == i
      ensures crypto.byteHash(p.chunks[i].cipherBytes) == p.chunks[i].cipherHash
    {
      PreparedChunkOpens(crypto, key, identity, plaintext, max, nonces, p, i);
    }
    PreparedCounts(crypto, key, identity, plaintext, max, nonces, p);
    SortOfPermutation(shuffled, p.chunks, IndexOf());
    SortOfPermutation(p.chunks, p.chunks, IndexOf());
    assert Openings(crypto, key, ClaimOf(p), p.chunks) == Pieces(plaintext, size, p.chunkCount);
    SlicesPartition(plaintext, size);
  }

  // ----- a manifest determines its content -----

  lemma AcceptedIsClean(crypto: Crypto, key: Id, claim: Claim, chunks: seq<Chunk>)
    requires Ideal(crypto) && Accepts(crypto, key, claim, chunks)
    ensures AllClean(DescribeAll(SortBy(chunks, IndexOf())))
    ensures IsAscii(Lines(DescribeAll(SortBy(chunks, IndexOf()))))
  {
    var sorted := SortBy(chunks, IndexOf());
    var ds := DescribeAll(sorted);
    forall i | 0 <= i < |ds| ensures Clean(ds[i]) && IsAscii(ds[i].cipherHash) && IsAscii(ds[i].nonce) {
      assert OpenChunk(crypto, key, claim, sorted[i]).Some?;
      var nonce := Base64.FromCanonical(sorted[i].nonce);
      assert nonce.Some? && sorted[i].nonce == Base64.Encode(nonce.value);
      Base64IsClean(sorted[i].nonce);
      assert sorted[i].cipherHash == crypto.byteHash(sorted[i].cipherBytes);
    }
    AsciiLines(ds);
  }

  lemma Base64IsClean(s: string)
    requires Base64.IsBase64Text(s)
    ensures ':' !in s && '\n' !in s && IsAscii(s)
  {
    forall c | c in s ensures c != '\n' && c != ':' && c as int < 128 {
      var i :| 0 <= i < |s| && s[i] == c;
    }
  }

  lemma {:induction false} AsciiLines(ds: seq<Descriptor>)
    requires forall i :: 0 <= i < |ds| ==> IsAscii(ds[i].cipherHash) && IsAscii(ds[i].nonce)
    ensures IsAscii(Lines(ds))
  {
    if ds != [] {
      AsciiLines(ds[1..]);
      AsciiLine(ds[0]);
    }
  }

  lemma AsciiLine(d: Descriptor)
    requires IsAscii(d.cipherHash) && IsAscii(d.nonce)
    ensures IsAscii(Line(d))
  {
    assert forall c :: c in Decimal(d.chunkIndex) ==> IsDigit(c);
    assert forall c :: c in Decimal(d.cipherLength) ==> IsDigit(c);
  }

  /**
   Any two chunk lists accepted against one claim and key are the same chunks up to order,
   and so give the same plaintext: nobody can serve other content under a manifest.
   */
  lemma ManifestDeterminesContent(crypto: Crypto, key: Id, claim: Claim, a: seq<Chunk>, b: seq<Chunk>)
    requires Ideal(crypto) && Accepts(crypto, key, claim, a) && Accepts(crypto, key, claim, b)
    ensures multiset(a) == multiset(b)
    ensures Plaintext(crypto, key, claim, a) == Plaintext(crypto, key, claim, b)
  {
    var x, y := SortBy(a, IndexOf()), SortBy(b, IndexOf());
    AcceptedIsClean(crypto, key, claim, a);
    AcceptedIsClean(crypto, key, claim, b);
    LinesInjective(DescribeAll(x), DescribeAll(y));
    forall i | 0 <= i < |x| ensures x[i] == y[i] {
      assert Describe(x[i]) == DescribeAll(x)[i] == DescribeAll(y)[i] == Describe(y[i]);
      assert crypto.byteHash(x[i].cipherBytes) == crypto.byteHash(y[i].cipherBytes);
    }
    assert x == y;
    SortSorts(a, IndexOf());
    SortSorts(b, IndexOf());
  }

  // ----- the server's hash -----

  /** A content_chunks row: the nonce is stored as bytes. */
  datatype StoredChunk = StoredChunk(chunkIndex: nat, cipherLength: nat, cipherHash: string, nonce: Bytes)

  function StoredIndex(): StoredChunk -> int { (c: StoredChunk) => c.chunkIndex }

  function StoredDescriptor(c: StoredChunk): Descriptor {
    Descriptor(c.chunkIndex, c.cipherLength, c.cipherHash, Base64.Encode(c.nonce))
  }

  function StoredDescriptors(chunks: seq<StoredChunk>): (ds: seq<Descriptor>)
    ensures |ds| == |chunks| && forall i :: 0 <= i < |ds| ==> ds[i] == StoredDescriptor(chunks[i])
  {
    seq(|chunks|, i requires 0 <= i < |chunks| => StoredDescriptor(chunks[i]))
  }

  /** contentManifestHash feeds a running hash line by line. */
  method ContentManifestHash(crypto: Crypto, chunks: seq<StoredChunk>) returns (digest: string)
    ensures digest == crypto.textHash(Lines(StoredDescriptors(SortBy(chunks, StoredIndex()))))
  {
    hide Line, Lines, SortBy;
    var sorted := SortBy(chunks, StoredIndex());
    var text := Lines([]);
    assert StoredDescriptors(sorted[..0]) == [];
    for i := 0 to |sorted|
      invariant text == Lines(StoredDescriptors(sorted[..i]))
    {
      text := FeedLine(text, sorted, i);
    }
    assert sorted[..|sorted|] == sorted;
    digest := crypto.textHash(text);
  }

  method FeedLine(text: string, sorted: seq<StoredChunk>, i: nat) returns (longer: string)
    requires i < |sorted| && text == Lines(StoredDescriptors(sorted[..i]))
    ensures longer == Lines(StoredDescriptors(sorted[..i + 1]))
  {
    hide Line, Lines;
    assert StoredDescriptors(sorted[..i + 1]) == StoredDescriptors(sorted[..i]) + [StoredDescriptor(sorted[i])];
    AppendLine(StoredDescriptors(sorted[..i]), StoredDescriptor(sorted[i]));
    longer := text + Line(StoredDescriptor(sorted[i]));
  }

  lemma {:induction false} AppendLine(ds: seq<Descriptor>, d: Descriptor)
    ensures Lines(ds + [d]) == Lines(ds) + Line(d)
  {
    if ds == [] {
      assert [] + [d] == [d];
      assert Lines([d]) == Line(d) + Lines([]);
    } else {
      AppendLine(ds[1..], d);
      assert (ds + [d])[1..] == ds[1..] + [d];
    }
  }

  /** The row the upload route stores for a client's chunk. */
  predicate StoredAs(chunk: Chunk, row: StoredChunk) {
    && chunk.chunkIndex == row.chunkIndex
    && |chunk.cipherBytes| == row.cipherLength
    && chunk.cipherHash == row.cipherHash
    && Base64.FromCanonical(chunk.nonce) == Some(row.nonce)
  }

  /** Client and server name the same chunks alike, whatever order either holds them in. */
  lemma BothSidesHashAlike(crypto: Crypto, chunks: seq<Chunk>, rows: seq<StoredChunk>, shuffled: seq<Chunk>,
      shelved: seq<StoredChunk>)
    requires |chunks| == |rows|
    requires forall i :: 0 <= i < |chunks| ==> chunks[i].chunkIndex == i && StoredAs(chunks[i], rows[i])
    requires multiset(shuffled) == multiset(chunks) && multiset(shelved) == multiset(rows)
    ensures ManifestHash(crypto, shuffled) == crypto.textHash(Lines(StoredDescriptors(SortBy(shelved, StoredIndex()))))
  {
    SortOfPermutation(shuffled, chunks, IndexOf());
    SortOfPermutation(shelved, rows, StoredIndex());
    forall i | 0 <= i < |chunks| ensures Describe(chunks[i]) == StoredDescriptor(rows[i]) {
      Base64.CanonicalIffEncoding(chunks[i].nonce, rows[i].nonce);
    }
    assert DescribeAll(chunks) == StoredDescriptors(rows);
  }

  // ----- downloads -----

  datatype Downloaded = Downloaded(bytes: Bytes, cipherHash: string, nonce: string)

  function FetchedChunk(index: nat, d: Downloaded): Chunk { Chunk(index, d.bytes, d.cipherHash, d.nonce) }

  /** The chunks a server serves for a manifest, in order. */
  function Served(fetch: nat -> Downloaded, count: nat): (chunks: seq<Chunk>)
    ensures |chunks| == count && forall i :: 0 <= i < count ==> chunks[i] == FetchedChunk(i, fetch(i))
  {
    seq(count, i requires 0 <= i < count => FetchedChunk(i, fetch(i)))
  }
}
