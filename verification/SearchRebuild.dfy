/**
 When an incremental build equals a build from nothing: a condition on the store alone, for all
 updates; and what the store holds after any run of one tokenizer.
 */
module SearchRebuild {
  import opened Basics
  import opened SearchIndex

  // ----- the condition on the store -----

  /** An entry that a text would reuse is what building that text gives. */
  ghost predicate StoreAgrees(tk: Tokenizer, previous: map<string, Entry>) {
    forall id, text :: id in previous && id != "" && previous[id].fingerprint == tk.fingerprint(text) ==>
      previous[id] == Fresh(tk, Block(id, text))
  }

  lemma AgreeingStoreBuildsFresh(tk: Tokenizer, previous: map<string, Entry>, blocks: seq<Block>)
    requires StoreAgrees(tk, previous) && BlocksValid(blocks)
    ensures Rebuilt(tk, previous, blocks) == FreshBuild(tk, blocks)
  {
    forall i | 0 <= i < |blocks| ensures EntryFor(tk, previous, blocks[i]) == Fresh(tk, blocks[i]) {
      assert blocks[i] == Block(blocks[i].blockId, blocks[i].text);
    }
  }

  lemma DisagreementShows(tk: Tokenizer, previous: map<string, Entry>, id: string, text: string)
    requires id in previous && id != "" && previous[id].fingerprint == tk.fingerprint(text)
    requires Rebuilt(tk, previous, [Block(id, text)]) == FreshBuild(tk, [Block(id, text)])
    ensures previous[id] == Fresh(tk, Block(id, text))
  {
    assert Rebuilt(tk, previous, [Block(id, text)])[0] == previous[id];
    assert FreshBuild(tk, [Block(id, text)])[0] == Fresh(tk, Block(id, text));
  }

  /** Updates an apply builds for. */
  predicate Buildable(records: Records, u: SectionUpdate) { UpdateValid(u) && BlocksValid(u.blocks) && !Newer(records, u) }

  predicate BuildsFresh(tk: Tokenizer, records: Records, u: SectionUpdate) {
    NewRecord(tk, records, u) == Record(u.serverSequence, Some(FreshBuild(tk, u.blocks)))
  }

  /** Every apply stores what a rebuild would, if and only if every readable record of the store agrees. */
  lemma ApplyIsFreshIff(tk: Tokenizer, records: Records)
    ensures (forall u :: Buildable(records, u) ==> BuildsFresh(tk, records, u))
      <==> (forall key :: KeyValid(key) ==> StoreAgrees(tk, ById(Existing(records, key))))
  {
    hide ById, Rebuilt, FreshBuild, BlocksValid, StoreAgrees;
    if forall key :: KeyValid(key) ==> StoreAgrees(tk, ById(Existing(records, key))) {
      forall u | Buildable(records, u) ensures BuildsFresh(tk, records, u) {
        AgreeingStoreBuildsFresh(tk, ById(Existing(records, u.key)), u.blocks);
      }
    }
    if forall u :: Buildable(records, u) ==> BuildsFresh(tk, records, u) {
      forall key | KeyValid(key) ensures StoreAgrees(tk, ById(Existing(records, key))) {
        FreshUpdatesMeanAgreement(tk, records, key);
      }
    }
  }

  lemma FreshUpdatesMeanAgreement(tk: Tokenizer, records: Records, key: SectionKey)
    requires KeyValid(key) && forall u :: Buildable(records, u) ==> BuildsFresh(tk, records, u)
    ensures StoreAgrees(tk, ById(Existing(records, key)))
  {
    hide ById, Rebuilt, FreshBuild;
    var previous := ById(Existing(records, key));
    var sequence := if key in records then Max(0, records[key].indexedSequence) else 0;
    forall id, text | id in previous && id != "" && previous[id].fingerprint == tk.fingerprint(text)
      ensures previous[id] == Fresh(tk, Block(id, text))
    {
      var u := SectionUpdate(key, sequence, [Block(id, text)]);
      assert Buildable(records, u);
      DisagreementShows(tk, previous, id, text);
    }
  }

  // ----- stores of one tokenizer -----

  ghost predicate CollisionFree(tk: Tokenizer) { forall a, b :: tk.fingerprint(a) == tk.fingerprint(b) ==> a == b }

  /** Built by this tokenizer from some text. */
  ghost predicate Honest(tk: Tokenizer, e: Entry) { exists text :: e == Fresh(tk, Block(e.blockId, text)) }

  ghost predicate HonestEntries(tk: Tokenizer, entries: seq<Entry>) { forall i :: 0 <= i < |entries| ==> Honest(tk, entries[i]) }

  ghost predicate HonestRecords(tk: Tokenizer, records: Records) {
    forall key :: key in records && records[key].payload.Some? ==> HonestEntries(tk, records[key].payload.value)
  }

  /** No text has this fingerprint, so the entry is never reused. */
  ghost predicate NeverReused(tk: Tokenizer, e: Entry) { forall text :: tk.fingerprint(text) != e.fingerprint }

  lemma {:induction false} ByIdKeeps(entries: seq<Entry>)
    ensures forall id :: id in ById(entries) ==> ById(entries)[id].blockId == id && ById(entries)[id] in entries
  {
    if entries != [] {
      ByIdKeeps(entries[..|entries| - 1]);
    }
  }

  /** Without collisions the condition is about single entries: built by this tokenizer, or of no use to it. */
  lemma AgreesIffHonest(tk: Tokenizer, entries: seq<Entry>)
    requires CollisionFree(tk)
    ensures StoreAgrees(tk, ById(entries))
      <==> forall id :: id in ById(entries) && id != "" ==> Honest(tk, ById(entries)[id]) || NeverReused(tk, ById(entries)[id])
  {
    hide ById;
    ByIdKeeps(entries);
    var previous := ById(entries);
    if StoreAgrees(tk, previous) {
      forall id | id in previous && id != "" && !NeverReused(tk, previous[id]) ensures Honest(tk, previous[id]) {
        var text :| tk.fingerprint(text) == previous[id].fingerprint;
        assert previous[id] == Fresh(tk, Block(id, text));
      }
    }
    if forall id :: id in previous && id != "" ==> Honest(tk, previous[id]) || NeverReused(tk, previous[id]) {
      forall id, text | id in previous && id != "" && previous[id].fingerprint == tk.fingerprint(text)
        ensures previous[id] == Fresh(tk, Block(id, text))
      {
        assert Honest(tk, previous[id]);
        var built :| previous[id] == Fresh(tk, Block(id, built));
        assert tk.fingerprint(built) == tk.fingerprint(text);
      }
    }
  }

  lemma HonestApplyIsFresh(tk: Tokenizer, records: Records, u: SectionUpdate)
    requires CollisionFree(tk) && HonestRecords(tk, records) && BlocksValid(u.blocks)
    ensures BuildsFresh(tk, records, u)
  {
    hide ById, Rebuilt, FreshBuild, BlocksValid, StoreAgrees, CollisionFree, Honest;
    var entries := Existing(records, u.key);
    ByIdKeeps(entries);
    assert HonestEntries(tk, entries);
    AgreesIffHonest(tk, entries);
    AgreeingStoreBuildsFresh(tk, ById(entries), u.blocks);
  }

  lemma FreshIsHonest(tk: Tokenizer, blocks: seq<Block>)
    ensures HonestEntries(tk, FreshBuild(tk, blocks))
  {
    forall i | 0 <= i < |blocks| ensures Honest(tk, FreshBuild(tk, blocks)[i]) {
      assert FreshBuild(tk, blocks)[i] == Fresh(tk, Block(blocks[i].blockId, blocks[i].text));
    }
  }

  // ----- changing the tokenizer over a store it did not build -----

  /** The text is what the stored entry of that block was built from. */
  predicate Unchanged(tk: Tokenizer, records: Records, key: SectionKey, id: string, text: string) {
    Reused(tk, ById(Existing(records, key)), Block(id, text))
  }

  /** Both make the same terms and excerpt of every unchanged block of a section. */
  ghost predicate SameAnalysis(was: Tokenizer, now: Tokenizer, records: Records, key: SectionKey) {
    forall id, text :: id != "" && Unchanged(now, records, key, id, text) ==>
      was.terms(text) == now.terms(text) && was.excerpt(text) == now.excerpt(text)
  }

  /**
   A store that tokenizer `was` built, applied to by `now` with the same fingerprints: every apply
   stores a rebuild if and only if both make the same of every unchanged block.
   */
  lemma UpgradeIsFreshIff(was: Tokenizer, now: Tokenizer, records: Records)
    requires CollisionFree(was) && was.fingerprint == now.fingerprint && HonestRecords(was, records)
    ensures (forall u :: Buildable(records, u) ==> BuildsFresh(now, records, u))
      <==> (forall key :: KeyValid(key) ==> SameAnalysis(was, now, records, key))
  {
    hide ById, Buildable, BuildsFresh, HonestRecords, CollisionFree, StoreAgrees, SameAnalysis;
    ApplyIsFreshIff(now, records);
    forall key ensures StoreAgrees(now, ById(Existing(records, key))) <==> SameAnalysis(was, now, records, key) {
      SameAnalysisIsAgreement(was, now, records, key);
    }
  }

  lemma SameAnalysisIsAgreement(was: Tokenizer, now: Tokenizer, records: Records, key: SectionKey)
    requires CollisionFree(was) && was.fingerprint == now.fingerprint && HonestRecords(was, records)
    ensures StoreAgrees(now, ById(Existing(records, key))) <==> SameAnalysis(was, now, records, key)
  {
    hide ById, HonestRecords, CollisionFree;
    var previous := ById(Existing(records, key));
    forall id, text | id in previous && previous[id].fingerprint == now.fingerprint(text)
      ensures Unchanged(now, records, key, id, text) && previous[id] == Fresh(was, Block(id, text))
    {
      UnchangedText(was, now, records, key, id, text);
    }
    if StoreAgrees(now, previous) {
      forall id, text | id != "" && Unchanged(now, records, key, id, text)
        ensures was.terms(text) == now.terms(text) && was.excerpt(text) == now.excerpt(text)
      {
        assert previous[id] == Fresh(now, Block(id, text));
      }
    }
  }

  lemma UnchangedText(was: Tokenizer, now: Tokenizer, records: Records, key: SectionKey, id: string, text: string)
    requires CollisionFree(was) && was.fingerprint == now.fingerprint && HonestRecords(was, records)
    requires Unchanged(now, records, key, id, text)
    ensures ById(Existing(records, key))[id] == Fresh(was, Block(id, text))
  {
    hide ById;
    var entries := Existing(records, key);
    ByIdKeeps(entries);
    var e := ById(entries)[id];
    assert HonestEntries(was, entries);
    assert Honest(was, e);
    var built :| e == Fresh(was, Block(e.blockId, built));
    assert was.fingerprint(built) == was.fingerprint(text);
  }

  /** The failing input: one apply by a first tokenizer, then one by another that finds the block unchanged. */
  lemma ForeignEntrySurvives(key: SectionKey)
    requires KeyValid(key)
    ensures var was := Tokenizer(text => [text], text => text, text => text);
      var now := Tokenizer(text => [], text => text, text => text);
      var first := SectionUpdate(key, 1, [Block("b", "text")]);
      var records := Put(map[], key, NewRecord(was, map[], first));
      var second := first.(serverSequence := 2);
      && CollisionFree(was) && was.fingerprint == now.fingerprint
      && Buildable(map[], first) && BuildsFresh(was, map[], first) && Buildable(records, second)
      && NewRecord(now, records, second) == Record(2, Some(FreshBuild(was, second.blocks)))
      && !BuildsFresh(now, records, second)
  {
    var was := Tokenizer(text => [text], text => text, text => text);
    var now := Tokenizer(text => [], text => text, text => text);
    var blocks := [Block("b", "text")];
    var e := Fresh(was, blocks[0]);
    assert Rebuilt(was, map[], blocks) == [e] == FreshBuild(was, blocks);
    assert [e][..0] == [];
    assert ById([e]) == map["b" := e];
    assert Rebuilt(now, map["b" := e], blocks) == [e];
    assert FreshBuild(now, blocks)[0].terms == [] != e.terms;
  }

  // ----- runs of one tokenizer -----

  /** One apply of some tab; what it builds on is what it read, after `readAt` of the earlier ones. */
  datatype Apply = Apply(update: SectionUpdate, readAt: nat)

  /** The apply gets as far as its write: it read no newer record and its blocks are sound. */
  predicate Writes(tk: Tokenizer, applies: seq<Apply>, i: nat)
    requires i < |applies|
    decreases i, 2
  {
    applies[i].readAt <= i && Buildable(After(tk, applies, applies[i].readAt), applies[i].update)
  }

  /** The store after the first n applies, from an empty one. */
  function After(tk: Tokenizer, applies: seq<Apply>, n: nat): Records
    requires n <= |applies|
    decreases n, 1
  {
    if n == 0 then map[]
    else
      var before, a := After(tk, applies, n - 1), applies[n - 1];
      if Writes(tk, applies, n - 1) then Put(before, a.update.key, NewRecord(tk, After(tk, applies, a.readAt), a.update)) else before
  }

  /** For each section the update whose write was the last to be let through. */
  function LastApplied(tk: Tokenizer, applies: seq<Apply>, n: nat): map<SectionKey, SectionUpdate>
    requires n <= |applies|
  {
    if n == 0 then map[]
    else
      var before, u := LastApplied(tk, applies, n - 1), applies[n - 1].update;
      if Writes(tk, applies, n - 1) && (u.key in before ==> before[u.key].serverSequence <= u.serverSequence) then before[u.key := u] else before
  }

  /** The store is a fresh build of each section's last applied update. */
  ghost predicate Mirrors(tk: Tokenizer, records: Records, applied: map<SectionKey, SectionUpdate>) {
    && records.Keys == applied.Keys
    && (forall key :: key in applied ==>
      && applied[key].key == key
      && records[key] == Record(applied[key].serverSequence, Some(FreshBuild(tk, applied[key].blocks))))
  }

  lemma MirrorIsHonest(tk: Tokenizer, records: Records, applied: map<SectionKey, SectionUpdate>)
    requires Mirrors(tk, records, applied)
    ensures HonestRecords(tk, records)
  {
    hide FreshBuild, HonestEntries;
    forall key | key in records ensures HonestEntries(tk, records[key].payload.value) {
      FreshIsHonest(tk, applied[key].blocks);
    }
  }

  /** After every run, with reads as stale as one likes, the store mirrors what was applied. */
  lemma {:induction false} RunMirrorsApplied(tk: Tokenizer, applies: seq<Apply>, n: nat)
    requires CollisionFree(tk) && n <= |applies|
    ensures Mirrors(tk, After(tk, applies, n), LastApplied(tk, applies, n))
    decreases n
  {
    hide CollisionFree, FreshBuild, Rebuilt, ById, BlocksValid, HonestRecords;
    if n > 0 {
      RunMirrorsApplied(tk, applies, n - 1);
      if Writes(tk, applies, n - 1) {
        var a := applies[n - 1];
        var read := After(tk, applies, a.readAt);
        RunMirrorsApplied(tk, applies, a.readAt);
        MirrorIsHonest(tk, read, LastApplied(tk, applies, a.readAt));
        HonestApplyIsFresh(tk, read, a.update);
      }
    }
  }

  /** And no version ever applied is newer than the one the index shows. */
  lemma {:induction false} NewestApplied(tk: Tokenizer, applies: seq<Apply>, n: nat, i: nat)
    requires CollisionFree(tk) && i < n <= |applies|
    requires UpdateValid(applies[i].update) && BlocksValid(applies[i].update.blocks) && applies[i].readAt <= i
    ensures applies[i].update.key in LastApplied(tk, applies, n)
    ensures LastApplied(tk, applies, n)[applies[i].update.key].serverSequence >= applies[i].update.serverSequence
    decreases n
  {
    hide CollisionFree, FreshBuild, BlocksValid, NewRecord;
    var a := applies[i];
    if i < n - 1 {
      NewestApplied(tk, applies, n - 1, i);
    } else if !Writes(tk, applies, i) {
      RunMirrorsApplied(tk, applies, a.readAt);
      AppliedGrows(tk, applies, a.readAt, i, a.update.key);
    }
  }

  lemma {:induction false} AppliedGrows(tk: Tokenizer, applies: seq<Apply>, m: nat, n: nat, key: SectionKey)
    requires m <= n <= |applies| && key in LastApplied(tk, applies, m)
    ensures key in LastApplied(tk, applies, n)
    ensures LastApplied(tk, applies, m)[key].serverSequence <= LastApplied(tk, applies, n)[key].serverSequence
    decreases n
  {
    hide Writes;
    if m < n {
      AppliedGrows(tk, applies, m, n - 1, key);
    }
  }

  // ----- sequences never go back -----

  /** Over any run of writes by any tabs, no record disappears and no sequence decreases. */
  lemma {:induction false} SequencesNeverGoBack(records: Records, writes: seq<(SectionKey, Record)>, key: SectionKey)
    ensures key in records ==>
      key in PutAll(records, writes) && records[key].indexedSequence <= PutAll(records, writes)[key].indexedSequence
  {
    if writes != [] {
      SequencesNeverGoBack(records, writes[..|writes| - 1], key);
    }
  }
}
