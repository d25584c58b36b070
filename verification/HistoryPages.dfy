/** Turning the rows a history query selects into one bounded page. */
module HistoryPages {
  import opened Basics
  import opened SectionHistory

  datatype EntryBase = EntryBase(
    updateId: Id,
    serverSequence: nat,
    cryptoOwnerId: Id,
    keyEpoch: nat,
    kind: Kind,
    checkpointSequenceCutoff: Option<nat>,
    ops: set<Op>)

  datatype Entry =
    | InlineEntry(base: EntryBase, inlineCipher: Bytes, nonce: Bytes)
    | ManifestEntry(base: EntryBase, manifestId: Id, uploadId: Id, totalCipherBytes: nat, chunkCount: nat, manifestHash: string)

  datatype Page = Page(entries: seq<Entry>, hasMore: bool, nextSequence: nat)

  /** A row is presentable when it is a whole inline update or a whole manifest reference. */
  predicate Presentable(row: Row) {
    if row.manifestId.Some? then
      row.uploadId.Some? && row.totalCipherBytes.Some? && row.chunkCount.Some?
      && row.manifestHash.Some? && row.manifestHash.value != ""
    else row.inlineCipher.Some? && row.nonce.Some?
  }

  function HistoryEntry(row: Row): (r: Result<Entry>)
    ensures r.Ok? <==> Presentable(row)
    ensures r.Ok? ==> Represents(r.value, row)
  {
    var base := EntryBase(row.updateId, row.serverSequence, row.cryptoOwnerId, row.keyEpoch, row.kind,
                          row.checkpointSequenceCutoff, row.ops);
    if row.manifestId.Some? then
      if row.uploadId.None? || row.totalCipherBytes.None? || row.chunkCount.None?
         || row.manifestHash.None? || row.manifestHash.value == ""
      then Err("Content manifest history is incomplete")
      else Ok(ManifestEntry(base, row.manifestId.value, row.uploadId.value, row.totalCipherBytes.value,
                            row.chunkCount.value, row.manifestHash.value))
    else if row.inlineCipher.None? || row.nonce.None? then Err("Inline content history is incomplete")
    else Ok(InlineEntry(base, row.inlineCipher.value, row.nonce.value))
  }

  /** Nothing a reader needs is lost or swapped between row and entry. */
  predicate Represents(entry: Entry, row: Row) {
    && entry.base.updateId == row.updateId
    && entry.base.serverSequence == row.serverSequence
    && entry.base.cryptoOwnerId == row.cryptoOwnerId
    && entry.base.keyEpoch == row.keyEpoch
    && entry.base.kind == row.kind
    && entry.base.checkpointSequenceCutoff == row.checkpointSequenceCutoff
    && entry.base.ops == row.ops
    && (entry.ManifestEntry? <==> row.manifestId.Some?)
    && (entry.ManifestEntry? ==>
          && row.manifestId == Some(entry.manifestId)
          && row.uploadId == Some(entry.uploadId)
          && row.totalCipherBytes == Some(entry.totalCipherBytes)
          && row.chunkCount == Some(entry.chunkCount)
          && row.manifestHash == Some(entry.manifestHash))
    && (entry.InlineEntry? ==> row.inlineCipher == Some(entry.inlineCipher) && row.nonce == Some(entry.nonce))
  }

  function InlineBytes(row: Row): nat {
    if row.manifestId.None? && row.inlineCipher.Some? then |row.inlineCipher.value| else 0
  }

  function PageBytes(rows: seq<Row>): nat {
    if rows == [] then 0 else PageBytes(rows[..|rows| - 1]) + InlineBytes(rows[|rows| - 1])
  }

  function Last(entries: seq<Entry>, fallback: nat): nat {
    if entries == [] then fallback else entries[|entries| - 1].base.serverSequence
  }

  /**
   A page holds the longest run of the selected rows that respects both limits; its first
   row is always let through. `hasMore` says exactly whether selected rows were left out.
   */
  ghost predicate IsPage(rows: seq<Row>, after: nat, maxItems: nat, maxBytes: nat, page: Page) {
    var k := |page.entries|;
    && k <= |rows| && k <= maxItems
    && (forall i :: 0 <= i < k ==> Represents(page.entries[i], rows[i]))
    && (0 < |rows| && 0 < maxItems ==> 0 < k)
    && (1 < k ==> PageBytes(rows[..k]) <= maxBytes)
    && (k < |rows| && k < maxItems ==> PageBytes(rows[..k + 1]) > maxBytes)
    && (page.hasMore <==> k < |rows|)
    && page.nextSequence == Last(page.entries, after)
  }

  /** The inline ciphertext a page carries. */
  function CipherBytes(entries: seq<Entry>): nat {
    if entries == [] then 0
    else CipherBytes(entries[..|entries| - 1]) + match entries[|entries| - 1]
      case InlineEntry(_, cipher, _) => |cipher|
      case ManifestEntry(_, _, _, _, _, _) => 0
  }

  /** More than one entry only within the byte limit, and one more row would have broken a limit. */
  ghost predicate Fills(rows: seq<Row>, maxItems: nat, maxBytes: nat, entries: seq<Entry>) {
    && |entries| <= |rows| && |entries| <= maxItems && (1 < |entries| ==> CipherBytes(entries) <= maxBytes)
    && (|entries| < |rows| && |entries| < maxItems ==>
          && entries != []
          && var next := rows[|entries|];
             maxBytes < CipherBytes(entries) + (if next.manifestId == None && next.inlineCipher != None then |next.inlineCipher.value| else 0))
  }

  lemma {:induction false} CarriedBytes(rows: seq<Row>, entries: seq<Entry>)
    requires |entries| == |rows| && forall i :: 0 <= i < |rows| ==> Represents(entries[i], rows[i])
    ensures CipherBytes(entries) == PageBytes(rows)
  {
    if rows != [] {
      CarriedBytes(rows[..|rows| - 1], entries[..|entries| - 1]);
      assert Represents(entries[|entries| - 1], rows[|rows| - 1]);
    }
  }

  lemma PageFills(rows: seq<Row>, after: nat, maxItems: nat, maxBytes: nat, page: Page)
    requires IsPage(rows, after, maxItems, maxBytes, page)
    ensures Fills(rows, maxItems, maxBytes, page.entries)
  {
    var k := |page.entries|;
    CarriedBytes(rows[..k], page.entries);
    if k < |rows| && k < maxItems {
      assert rows[..k + 1][..k] == rows[..k];
      assert PageBytes(rows[..k + 1]) == PageBytes(rows[..k]) + InlineBytes(rows[k]);
    }
  }

  method PaginateHistory(rows: seq<Row>, after: nat, maxItems: nat, maxBytes: nat) returns (page: Result<Page>)
    ensures page.Ok? <==> forall i :: 0 <= i < |rows| && i < maxItems ==> Presentable(rows[i])
    ensures page.Ok? ==> IsPage(rows, after, maxItems, maxBytes, page.value)
    ensures page.Ok? ==> Fills(rows, maxItems, maxBytes, page.value.entries)
  {
    hide Fills, IsPage, Presentable, HistoryEntry;
    var limit := Min(|rows|, maxItems);
    var candidates: seq<Entry> := [];
    for i := 0 to limit
      invariant |candidates| == i
      invariant forall j :: 0 <= j < i ==> Presentable(rows[j]) && HistoryEntry(rows[j]) == Ok(candidates[j])
    {
      var entry := HistoryEntry(rows[i]);
      if entry.Err? {
        return Err(entry.reason);
      }
      candidates := candidates + [entry.value];
    }
    assert forall j :: 0 <= j < limit ==> Represents(candidates[j], rows[j]);
    var entries := TakeWithin(rows, candidates, maxBytes);
    page := Ok(Page(entries, |rows| > maxItems || |entries| < |candidates|, Last(entries, after)));
    TakenIsPage(rows, candidates, after, maxItems, maxBytes, page.value);
    PageFills(rows, after, maxItems, maxBytes, page.value);
  }

  /** The candidates that go on the page: the first one, and more while they fit. */
  ghost predicate Takes(rows: seq<Row>, candidates: seq<Entry>, maxBytes: nat, k: nat) {
    && k <= |candidates| <= |rows| && (0 < |candidates| ==> 0 < k)
    && (1 < k ==> PageBytes(rows[..k]) <= maxBytes)
    && (k < |candidates| ==> PageBytes(rows[..k + 1]) > maxBytes)
  }

  method TakeWithin(rows: seq<Row>, candidates: seq<Entry>, maxBytes: nat) returns (entries: seq<Entry>)
    requires |candidates| <= |rows| && forall j :: 0 <= j < |candidates| ==> Represents(candidates[j], rows[j])
    ensures Takes(rows, candidates, maxBytes, |entries|) && entries == candidates[..|entries|]
  {
    entries := [];
    var bytes := 0;
    var k := 0;
    while k < |candidates|
      invariant 0 <= k <= |candidates|
      invariant entries == candidates[..k]
      invariant bytes == PageBytes(rows[..k])
      invariant 1 < k ==> bytes <= maxBytes
    {
      assert rows[..k + 1][..k] == rows[..k];
      var row := candidates[k];
      var nextBytes := bytes + (if row.InlineEntry? then |row.inlineCipher| else 0);
      assert nextBytes == PageBytes(rows[..k + 1]);
      if |entries| > 0 && nextBytes > maxBytes {
        break;
      }
      entries := entries + [row];
      bytes := nextBytes;
      k := k + 1;
    }
  }

  lemma TakenIsPage(rows: seq<Row>, candidates: seq<Entry>, after: nat, maxItems: nat, maxBytes: nat, page: Page)
    requires |candidates| == Min(|rows|, maxItems) && forall j :: 0 <= j < |candidates| ==> Represents(candidates[j], rows[j])
    requires Takes(rows, candidates, maxBytes, |page.entries|) && page.entries == candidates[..|page.entries|]
    requires page.hasMore == (|rows| > maxItems || |page.entries| < |candidates|)
    requires page.nextSequence == Last(page.entries, after)
    ensures IsPage(rows, after, maxItems, maxBytes, page)
  {
    hide PageBytes, Represents;
  }
}
