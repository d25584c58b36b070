/**
 The incremental search index over decrypted sections: entries of unchanged blocks are kept,
 the rest rebuilt; records are sealed per section and only ever move forward.
 */
module SearchIndex {
  import opened Basics
  import Sorting

  datatype SectionKey = SectionKey(noteId: string, sectionId: string, keyEpoch: int)

  datatype Target = Target(key: SectionKey, serverSequence: int)

  datatype Block = Block(blockId: string, text: string)

  datatype SectionUpdate = SectionUpdate(key: SectionKey, serverSequence: int, blocks: seq<Block>)

  datatype Entry = Entry(blockId: string, fingerprint: string, terms: seq<string>, excerpt: string)

  /** A stored record; `payload` is what opening it yields, None when it cannot be opened. */
  datatype Record = Record(indexedSequence: int, payload: Option<seq<Entry>>)

  type Records = map<SectionKey, Record>

  /** Tokenising and normalising, cutting the excerpt, and hashing a block's text. */
  datatype Tokenizer = Tokenizer(terms: string -> seq<string>, excerpt: string -> string, fingerprint: string -> string)

  datatype Match = Match(noteId: string, sectionId: string, blockId: string, indexedSequence: int, excerpt: string)

  const MAX_SAFE_INTEGER := 9007199254740991

  /** How many sections one background call takes: at least one. */
  type BatchLimit = n: nat | 0 < n <= MAX_SAFE_INTEGER witness 1

  datatype ApplyOutcome = Invalid | Skipped(indexedSequence: int) | Applied(changed: seq<string>, indexedSequence: int)

  predicate KeyValid(key: SectionKey) { key.noteId != "" && key.sectionId != "" && key.keyEpoch > 0 }

  predicate TargetValid(t: Target) { KeyValid(t.key) && t.serverSequence >= 0 }

  predicate UpdateValid(u: SectionUpdate) { KeyValid(u.key) && u.serverSequence >= 0 }

  // ----- building entries -----

  function Fresh(tk: Tokenizer, block: Block): Entry {
    Entry(block.blockId, tk.fingerprint(block.text), tk.terms(block.text), tk.excerpt(block.text))
  }

  /** A build from nothing. */
  function FreshBuild(tk: Tokenizer, blocks: seq<Block>): (entries: seq<Entry>)
    ensures |entries| == |blocks| && forall i :: 0 <= i < |blocks| ==> entries[i] == Fresh(tk, blocks[i])
  {
    seq(|blocks|, i requires 0 <= i < |blocks| => Fresh(tk, blocks[i]))
  }

  /** The stored entries by block id; of several with one id the last counts. */
  function ById(entries: seq<Entry>): map<string, Entry> {
    if entries == [] then map[] else ById(entries[..|entries| - 1])[entries[|entries| - 1].blockId := entries[|entries| - 1]]
  }

  predicate Reused(tk: Tokenizer, previous: map<string, Entry>, block: Block) {
    block.blockId in previous && previous[block.blockId].fingerprint == tk.fingerprint(block.text)
  }

  function EntryFor(tk: Tokenizer, previous: map<string, Entry>, block: Block): Entry {
    if Reused(tk, previous, block) then previous[block.blockId] else Fresh(tk, block)
  }

  function Rebuilt(tk: Tokenizer, previous: map<string, Entry>, blocks: seq<Block>): (entries: seq<Entry>)
    ensures |entries| == |blocks| && forall i :: 0 <= i < |blocks| ==> entries[i] == EntryFor(tk, previous, blocks[i])
  {
    seq(|blocks|, i requires 0 <= i < |blocks| => EntryFor(tk, previous, blocks[i]))
  }

  /** Every block has an identity of its own. */
  predicate BlocksValid(blocks: seq<Block>) {
    && (forall i :: 0 <= i < |blocks| ==> blocks[i].blockId != "")
    && (forall i, j :: 0 <= i < j < |blocks| ==> blocks[i].blockId != blocks[j].blockId)
  }

  predicate HasBlock(blocks: seq<Block>, id: string) { exists i :: 0 <= i < |blocks| && blocks[i].blockId == id }

  /** Exactly the blocks whose entry was not reused, and the ids that are gone. */
  ghost predicate IsChanged(tk: Tokenizer, previous: map<string, Entry>, blocks: seq<Block>, changed: seq<string>) {
    forall id :: id in changed <==>
      || (exists i :: 0 <= i < |blocks| && blocks[i].blockId == id && !Reused(tk, previous, blocks[i]))
      || (id in previous && !HasBlock(blocks, id))
  }

  // ----- what a build and a write mean, said on the entries and records -----

  /** The last entry of this block in a stored list: of several with one id the last counts. */
  predicate LastOf(entries: seq<Entry>, j: int, blockId: string) {
    0 <= j < |entries| && entries[j].blockId == blockId && forall k :: j < k < |entries| ==> entries[k].blockId != blockId
  }

  /** The stored entry stands if it was made from a text of the same fingerprint; otherwise the block is analysed anew. */
  ghost predicate EntryStands(tk: Tokenizer, stored: seq<Entry>, block: Block, e: Entry) {
    if exists j :: LastOf(stored, j, block.blockId) && stored[j].fingerprint == tk.fingerprint(block.text)
    then exists j :: LastOf(stored, j, block.blockId) && e == stored[j]
    else
      && e.blockId == block.blockId && e.fingerprint == tk.fingerprint(block.text)
      && e.terms == tk.terms(block.text) && e.excerpt == tk.excerpt(block.text)
  }

  /** One entry a block, in order, and the changed ids: blocks analysed anew and stored blocks that are gone. */
  ghost predicate BuildAnswer(tk: Tokenizer, stored: seq<Entry>, blocks: seq<Block>, entries: seq<Entry>, changed: seq<string>) {
    && |entries| == |blocks|
    && (forall i :: 0 <= i < |blocks| ==> EntryStands(tk, stored, blocks[i], entries[i]))
    && (forall id :: id in changed <==> AnalysedAnew(tk, stored, blocks, id) || (HasEntry(stored, id) && !HasBlock(blocks, id)))
  }

  ghost predicate AnalysedAnew(tk: Tokenizer, stored: seq<Entry>, blocks: seq<Block>, id: string) {
    exists i :: 0 <= i < |blocks| && blocks[i].blockId == id
      && !exists j :: LastOf(stored, j, id) && stored[j].fingerprint == tk.fingerprint(blocks[i].text)
  }

  predicate HasEntry(stored: seq<Entry>, id: string) { exists j :: 0 <= j < |stored| && stored[j].blockId == id }

  lemma {:induction false} ByIdIsLast(entries: seq<Entry>, id: string)
    ensures id in ById(entries) <==> HasEntry(entries, id)
    ensures forall j :: LastOf(entries, j, id) ==> id in ById(entries) && ById(entries)[id] == entries[j]
    ensures id in ById(entries) ==> exists j :: LastOf(entries, j, id)
  {
    if entries != [] {
      var init, last := entries[..|entries| - 1], |entries| - 1;
      ByIdIsLast(init, id);
      if entries[last].blockId == id {
        assert LastOf(entries, last, id);
      } else {
        forall j | LastOf(entries, j, id) ensures LastOf(init, j, id) {
        }
        forall j | LastOf(init, j, id) ensures LastOf(entries, j, id) {
        }
        if HasEntry(entries, id) {
          var j :| 0 <= j < |entries| && entries[j].blockId == id;
          assert init[j].blockId == id;
        }
        if HasEntry(init, id) {
          var j :| 0 <= j < |init| && init[j].blockId == id;
          assert entries[j].blockId == id;
        }
      }
    }
  }

  lemma ReusedMeans(tk: Tokenizer, stored: seq<Entry>, block: Block)
    ensures Reused(tk, ById(stored), block)
      <==> exists j :: LastOf(stored, j, block.blockId) && stored[j].fingerprint == tk.fingerprint(block.text)
    ensures EntryStands(tk, stored, block, EntryFor(tk, ById(stored), block))
  {
    hide ById;
    ByIdIsLast(stored, block.blockId);
  }

  lemma BuildTerms(tk: Tokenizer, stored: seq<Entry>, blocks: seq<Block>, changed: seq<string>)
    requires IsChanged(tk, ById(stored), blocks, changed)
    ensures BuildAnswer(tk, stored, blocks, Rebuilt(tk, ById(stored), blocks), changed)
  {
    hide ById, EntryStands, Reused, HasEntry, EntryFor;
    forall i | 0 <= i < |blocks|
      ensures EntryStands(tk, stored, blocks[i], Rebuilt(tk, ById(stored), blocks)[i])
      ensures Reused(tk, ById(stored), blocks[i])
        <==> exists j :: LastOf(stored, j, blocks[i].blockId) && stored[j].fingerprint == tk.fingerprint(blocks[i].text)
    {
      ReusedMeans(tk, stored, blocks[i]);
    }
    forall id ensures id in ById(stored) <==> HasEntry(stored, id) {
      ByIdIsLast(stored, id);
    }
  }

  /** The payload found under a key, if there is one that can be opened. */
  function PayloadAt(records: Records, key: SectionKey): seq<Entry> {
    if key !in records then [] else match records[key].payload case Some(entries) => entries case None => []
  }

  /** The record holds a build of the update's blocks over what was read, at the update's sequence. */
  ghost predicate HoldsBuild(tk: Tokenizer, read: Records, u: SectionUpdate, record: Record, changed: seq<string>) {
    record.indexedSequence == u.serverSequence && record.payload.Some?
    && BuildAnswer(tk, PayloadAt(read, u.key), u.blocks, record.payload.value, changed)
  }

  /** Names a section and a sequence, and no block lacks a name or shares it. */
  predicate WellFormed(u: SectionUpdate) {
    && u.key.noteId != "" && u.key.sectionId != "" && 1 <= u.key.keyEpoch && 0 <= u.serverSequence
  }

  predicate WellNamed(blocks: seq<Block>) {
    && (forall i :: 0 <= i < |blocks| ==> blocks[i].blockId != "")
    && (forall i, j :: 0 <= i < |blocks| && 0 <= j < |blocks| && i != j ==> blocks[i].blockId != blocks[j].blockId)
  }

  // ----- the store -----

  predicate Accepts(records: Records, key: SectionKey, record: Record) {
    key in records ==> records[key].indexedSequence <= record.indexedSequence
  }

  /** putSearchIndexSection: a record is replaced only by one at least as new. */
  function Put(records: Records, key: SectionKey, record: Record): Records {
    if Accepts(records, key, record) then records[key := record] else records
  }

  /** Writes of other tabs, in order. */
  function PutAll(records: Records, writes: seq<(SectionKey, Record)>): Records {
    if writes == [] then records
    else Put(PutAll(records, writes[..|writes| - 1]), writes[|writes| - 1].0, writes[|writes| - 1].1)
  }

  /** A listing of the store names each record exactly once. */
  ghost predicate Lists(records: Records, keys: seq<SectionKey>) {
    (forall key :: key in keys <==> key in records) && Sorting.Distinct(keys)
  }

  class SearchStore {
    var records: Records

    constructor ()
      ensures records == map[]
    {
      records := map[];
    }

    /** listSearchIndex: every record of the user once, in the order `rank` gives sections. */
    method ListSearchIndex(rank: SectionKey -> int) returns (keys: seq<SectionKey>)
      ensures Lists(records, keys) && Sorting.Sorted(keys, rank)
    {
      var found: seq<SectionKey> := [];
      var rest := records.Keys;
      while rest != {}
        invariant rest <= records.Keys
        invariant forall key :: key in found <==> key in records.Keys - rest
        invariant Sorting.Distinct(found)
        decreases |rest|
      {
        var key :| key in rest;
        Sorting.AppendDistinct(found, key);
        found := found + [key];
        rest := rest - {key};
      }
      Sorting.SortSorts(found, rank);
      Sorting.PermutationDistinct(found, Sorting.SortBy(found, rank));
      Sorting.PermutationMembers(found, Sorting.SortBy(found, rank));
      return Sorting.SortBy(found, rank);
    }

    method PutSearchIndexSection(key: SectionKey, record: Record) returns (stored: bool)
      modifies this
      ensures stored <==> Accepts(old(records), key, record)
      ensures records == Put(old(records), key, record)
      ensures !stored <==> key in old(records) && record.indexedSequence < old(records)[key].indexedSequence
      ensures records == if stored then old(records)[key := record] else old(records)
    {
      if key in records && records[key].indexedSequence > record.indexedSequence {
        return false;
      }
      records := records[key := record];
      return true;
    }
  }

  // ----- the index -----

  /** The payload to compare with: nothing when there is no record or it cannot be opened. */
  function Existing(records: Records, key: SectionKey): seq<Entry> {
    if key in records && records[key].payload.Some? then records[key].payload.value else []
  }

  predicate Newer(records: Records, u: SectionUpdate) { IsNewer(records, u.key, u.serverSequence) }

  predicate IsNewer(records: Records, key: SectionKey, sequence: int) { key in records && records[key].indexedSequence > sequence }

  function NewRecord(tk: Tokenizer, records: Records, u: SectionUpdate): Record {
    Record(u.serverSequence, Some(Rebuilt(tk, ById(Existing(records, u.key)), u.blocks)))
  }

  class ProtectedSearchIndex {
    const database: SearchStore
    const tk: Tokenizer
    const maxSectionsPerBatch: BatchLimit

    constructor (database: SearchStore, tk: Tokenizer, maxSectionsPerBatch: BatchLimit)
      ensures this.database == database && this.tk == tk && this.maxSectionsPerBatch == maxSectionsPerBatch
    {
      this.database, this.tk, this.maxSectionsPerBatch := database, tk, maxSectionsPerBatch;
    }

    /** The loop over the blocks; None when a block has no identity of its own. */
    method BuildEntries(previous: map<string, Entry>, blocks: seq<Block>) returns (result: Option<(seq<Entry>,
        seq<string>)>)
      ensures result.Some? <==> BlocksValid(blocks)
      ensures result.Some? ==> result.value.0 == Rebuilt(tk, previous, blocks) && IsChanged(tk, previous, blocks, result.value.1)
    {
      hide BlocksValid, IsChanged, Reused;
      var seen: set<string>, entries: seq<Entry>, changed: seq<string> := {}, [], [];
      NoBlocks();
      for i := 0 to |blocks|
        invariant Building(tk, previous, blocks, i, seen, entries, changed)
      {
        hide Building;
        if blocks[i].blockId == "" || blocks[i].blockId in seen {
          BadBlock(tk, previous, blocks, i, seen, entries, changed);
          return None;
        }
        ExtendBuild(tk, previous, blocks, i, seen, entries, changed);
        seen := seen + {blocks[i].blockId};
        entries := entries + [EntryFor(tk, previous, blocks[i])];
        changed := changed + (if Reused(tk, previous, blocks[i]) then [] else [blocks[i].blockId]);
      }
      assert blocks[..|blocks|] == blocks;
      var all := AppendGone(previous.Keys - seen, changed);
      FinishBuild(tk, previous, blocks, seen, entries, changed, all);
      return Some((entries, all));
    }

    /** changedBlockIds also names the blocks that are gone. */
    method AppendGone(ids: set<string>, changed: seq<string>) returns (all: seq<string>)
      ensures forall id :: id in all <==> id in changed || id in ids
    {
      all := changed;
      var gone := ids;
      while gone != {}
        invariant gone <= ids
        invariant forall id :: id in all <==> id in changed || id in ids - gone
        decreases |gone|
      {
        var id :| id in gone;
        gone := gone - {id};
        all := all + [id];
      }
    }

    /**
     applySection, with whatever other tabs write between its read and its write. What it stores
     depends on what it read; whether it stores, on what it finds then.
     */
    method ApplySection(update: SectionUpdate, meanwhile: seq<(SectionKey, Record)>) returns (outcome: ApplyOutcome)
      modifies database
      ensures outcome.Invalid? <==> !UpdateValid(update) || (!Newer(old(database.records), update) && !BlocksValid(update.blocks))
      ensures outcome.Invalid? || Newer(old(database.records), update) ==> database.records == old(database.records)
      ensures !outcome.Invalid? && !Newer(old(database.records), update) ==>
        database.records == Put(PutAll(old(database.records), meanwhile), update.key, NewRecord(tk, old(database.records), update))
      ensures outcome.Applied? ==>
        && database.records[update.key] == NewRecord(tk, old(database.records), update)
        && outcome.indexedSequence == update.serverSequence
        && IsChanged(tk, ById(Existing(old(database.records), update.key)), update.blocks, outcome.changed)
      ensures outcome.Skipped? ==>
        && IsNewer(database.records, update.key, update.serverSequence)
        && outcome.indexedSequence == database.records[update.key].indexedSequence
      ensures var newer := update.key in old(database.records) && update.serverSequence < old(database.records)[update.key].indexedSequence;
        && (outcome.Invalid? <==> !WellFormed(update) || (!newer && !WellNamed(update.blocks)))
        && (meanwhile == [] ==> (outcome.Skipped? <==> WellFormed(update) && newer))
      ensures outcome.Applied? ==>
        && update.key in database.records
        && HoldsBuild(tk, old(database.records), update, database.records[update.key], outcome.changed)
        && (meanwhile == [] ==> database.records - {update.key} == old(database.records) - {update.key})
    {
      hide IsChanged, ById, Rebuilt, HoldsBuild;
      if !UpdateValid(update) {
        return Invalid;
      }
      if update.key in database.records && database.records[update.key].indexedSequence > update.serverSequence {
        return Skipped(database.records[update.key].indexedSequence);
      }
      ghost var read := database.records;
      var previous := ById(Existing(database.records, update.key));
      var built := BuildEntries(previous, update.blocks);
      if built.None? {
        return Invalid;
      }
      OtherTabs(meanwhile);
      var stored := database.PutSearchIndexSection(update.key, Record(update.serverSequence, Some(built.value.0)));
      if !stored {
        return Skipped(database.records[update.key].indexedSequence);
      }
      BuildHolds(tk, read, update, built.value.1);
      return Applied(built.value.1, update.serverSequence);
    }

    method OtherTabs(writes: seq<(SectionKey, Record)>)
      modifies database
      ensures database.records == PutAll(old(database.records), writes)
    {
      for i := 0 to |writes|
        invariant database.records == PutAll(old(database.records), writes[..i])
      {
        assert writes[..i + 1][..i] == writes[..i];
        var _ := database.PutSearchIndexSection(writes[i].0, writes[i].1);
      }
      assert writes[..|writes|] == writes;
    }
  }

  /** createProtectedSearchIndex refuses an anonymous user, a key of the wrong size and an empty batch. */
  method CreateProtectedSearchIndex(database: SearchStore, userId: string, rootKey: Bytes, maxSectionsPerBatch: int, tk: Tokenizer)
      returns (index: Option<ProtectedSearchIndex>)
    ensures index.Some? <==> userId != "" && |rootKey| == 32 && 0 < maxSectionsPerBatch <= MAX_SAFE_INTEGER
    ensures index.Some? ==>
      && index.value.database == database && index.value.tk == tk
      && index.value.maxSectionsPerBatch == maxSectionsPerBatch
  {
    if userId == "" || |rootKey| != 32 {
      return None;
    }
    if maxSectionsPerBatch <= 0 || maxSectionsPerBatch > MAX_SAFE_INTEGER {
      return None;
    }
    var created := new ProtectedSearchIndex(database, tk, maxSectionsPerBatch);
    return Some(created);
  }

  lemma BuildHolds(tk: Tokenizer, read: Records, u: SectionUpdate, changed: seq<string>)
    requires IsChanged(tk, ById(Existing(read, u.key)), u.blocks, changed)
    ensures HoldsBuild(tk, read, u, NewRecord(tk, read, u), changed)
  {
    hide ById, BuildAnswer, IsChanged, Rebuilt;
    BuildTerms(tk, Existing(read, u.key), u.blocks, changed);
  }

  predicate ChangedIn(tk: Tokenizer, previous: map<string, Entry>, blocks: seq<Block>, i: nat, id: string)
    requires i <= |blocks|
  {
    exists j :: 0 <= j < i && blocks[j].blockId == id && !Reused(tk, previous, blocks[j])
  }

  /** After i blocks. */
  ghost predicate Building(tk: Tokenizer, previous: map<string, Entry>, blocks: seq<Block>, i: nat, seen: set<string>, entries: seq<Entry>, changed: seq<string>) {
    && i <= |blocks|
    && BlocksValid(blocks[..i])
    && (forall id :: id in seen <==> HasBlock(blocks[..i], id))
    && entries == Rebuilt(tk, previous, blocks[..i])
    && (forall id :: id in changed <==> ChangedIn(tk, previous, blocks, i, id))
  }

  lemma NoBlocks()
    ensures BlocksValid([])
  {
  }

  lemma BadBlock(tk: Tokenizer, previous: map<string, Entry>, blocks: seq<Block>, i: nat, seen: set<string>,
      entries: seq<Entry>, changed: seq<string>)
    requires i < |blocks| && Building(tk, previous, blocks, i, seen, entries, changed)
    requires blocks[i].blockId == "" || blocks[i].blockId in seen
    ensures !BlocksValid(blocks)
  {
    hide BlocksValid, Rebuilt, ChangedIn, HasBlock;
    NextBlock(blocks, i);
  }

  lemma ExtendBuild(tk: Tokenizer, previous: map<string, Entry>, blocks: seq<Block>, i: nat, seen: set<string>,
      entries: seq<Entry>, changed: seq<string>)
    requires i < |blocks| && Building(tk, previous, blocks, i, seen, entries, changed)
    requires blocks[i].blockId != "" && blocks[i].blockId !in seen
    ensures Building(tk, previous, blocks, i + 1, seen + {blocks[i].blockId}, entries + [EntryFor(tk, previous, blocks[i])],
                     changed + (if Reused(tk, previous, blocks[i]) then [] else [blocks[i].blockId]))
  {
    hide BlocksValid, HasBlock, Reused, EntryFor;
    NextBlock(blocks, i);
    var longer := changed + (if Reused(tk, previous, blocks[i]) then [] else [blocks[i].blockId]);
    forall id ensures id in longer <==> ChangedIn(tk, previous, blocks, i + 1, id) {
      ChangedGrows(tk, previous, blocks, i, id);
    }
    assert Rebuilt(tk, previous, blocks[..i + 1]) == Rebuilt(tk, previous, blocks[..i]) + [EntryFor(tk, previous, blocks[i])];
  }

  lemma ChangedGrows(tk: Tokenizer, previous: map<string, Entry>, blocks: seq<Block>, i: nat, id: string)
    requires i < |blocks|
    ensures ChangedIn(tk, previous, blocks, i + 1, id)
      <==> ChangedIn(tk, previous, blocks, i, id) || (blocks[i].blockId == id && !Reused(tk, previous, blocks[i]))
  {
  }

  lemma FinishBuild(tk: Tokenizer, previous: map<string, Entry>, blocks: seq<Block>, seen: set<string>,
      entries: seq<Entry>, changed: seq<string>, all: seq<string>)
    requires Building(tk, previous, blocks, |blocks|, seen, entries, changed) && blocks[..|blocks|] == blocks
    requires forall id :: id in all <==> id in changed || id in previous.Keys - seen
    ensures BlocksValid(blocks) && entries == Rebuilt(tk, previous, blocks) && IsChanged(tk, previous, blocks, all)
  {
    hide BlocksValid, Rebuilt, Reused;
  }

  lemma NextBlock(blocks: seq<Block>, i: nat)
    requires i < |blocks|
    ensures blocks[..i + 1] == blocks[..i] + [blocks[i]]
    ensures forall id :: HasBlock(blocks[..i + 1], id) <==> HasBlock(blocks[..i], id) || id == blocks[i].blockId
    ensures BlocksValid(blocks) ==> BlocksValid(blocks[..i + 1])
    ensures BlocksValid(blocks[..i + 1]) <==> BlocksValid(blocks[..i]) && blocks[i].blockId != "" && !HasBlock(blocks[..i], blocks[i].blockId)
  {
    var shorter, longer := blocks[..i], blocks[..i + 1];
    assert longer == shorter + [blocks[i]];
    forall id | HasBlock(shorter, id) ensures HasBlock(longer, id) {
      var j :| 0 <= j < |shorter| && shorter[j].blockId == id;
      assert longer[j].blockId == id;
    }
    assert longer[i].blockId == blocks[i].blockId;
    if BlocksValid(longer) {
      forall j | 0 <= j < |shorter| ensures shorter[j].blockId != blocks[i].blockId {
        assert longer[j] == shorter[j] && longer[i] == blocks[i];
      }
      forall a, b | 0 <= a < b < |shorter| ensures shorter[a].blockId != shorter[b].blockId {
        assert longer[a] == shorter[a] && longer[b] == shorter[b];
      }
      forall a | 0 <= a < |shorter| ensures shorter[a].blockId != "" {
        assert longer[a] == shorter[a];
      }
    }
  }
}
