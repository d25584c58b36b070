/**
 Coverage of a set of targets, the background batch, and queries, in the order the index reports
 them. The comparisons by localeCompare are the parameters `rank` and `matchRank`.
 */
module SearchCoverage {
  import opened Basics
  import opened SearchIndex
  import opened SearchRebuild
  import Sorting

  // ----- targets -----

  type Rank = SectionKey -> int

  function TargetRank(rank: Rank): Target -> int { (t: Target) => rank(t.key) }

  function IndexOf(targets: seq<Target>, key: SectionKey): (i: nat)
    ensures i <= |targets|
    ensures i < |targets| ==> targets[i].key == key
    ensures forall j :: 0 <= j < i ==> targets[j].key != key
  {
    if targets == [] || targets[0].key == key then 0 else 1 + IndexOf(targets[1..], key)
  }

  /** One more target: the first of a section is appended, a newer one takes its place. */
  function Collect(collected: seq<Target>, t: Target): seq<Target> {
    var i := IndexOf(collected, t.key);
    if i == |collected| then collected + [t]
    else if collected[i].serverSequence < t.serverSequence then collected[i := t]
    else collected
  }

  function Collected(targets: seq<Target>): seq<Target> {
    if targets == [] then [] else Collect(Collected(targets[..|targets| - 1]), targets[|targets| - 1])
  }

  function Normalized(targets: seq<Target>, rank: Rank): seq<Target> { Sorting.SortBy(Collected(targets), TargetRank(rank)) }

  ghost predicate DistinctKeys(targets: seq<Target>) {
    forall i, j :: 0 <= i < j < |targets| ==> targets[i].key != targets[j].key
  }

  /** The list has the target's section with a sequence at least as great. */
  ghost predicate Answers(result: seq<Target>, t: Target) {
    exists i :: 0 <= i < |result| && result[i].key == t.key && result[i].serverSequence >= t.serverSequence
  }

  /** Each section asked for once, with the greatest sequence asked for. */
  ghost predicate IsMaximum(targets: seq<Target>, result: seq<Target>) {
    && DistinctKeys(result)
    && (forall i :: 0 <= i < |result| ==> result[i] in targets)
    && (forall i :: 0 <= i < |targets| ==> Answers(result, targets[i]))
  }

  lemma CollectAnswers(collected: seq<Target>, t: Target, asked: Target)
    requires Answers(collected, asked) || asked == t
    ensures Answers(Collect(collected, t), asked)
  {
    var next, i := Collect(collected, t), IndexOf(collected, t.key);
    if asked == t {
      assert next[i].key == t.key && next[i].serverSequence >= t.serverSequence;
    } else {
      var j :| 0 <= j < |collected| && collected[j].key == asked.key && collected[j].serverSequence >= asked.serverSequence;
      assert next[j].key == asked.key && next[j].serverSequence >= asked.serverSequence;
    }
  }

  lemma CollectDraws(targets: seq<Target>, collected: seq<Target>, t: Target)
    requires DistinctKeys(collected) && forall i :: 0 <= i < |collected| ==> collected[i] in targets
    ensures DistinctKeys(Collect(collected, t))
    ensures forall i :: 0 <= i < |Collect(collected, t)| ==> Collect(collected, t)[i] in targets + [t]
  {
    var next := Collect(collected, t);
    forall i | 0 <= i < |next| ensures next[i] in targets + [t] {
      assert next[i] == t || next[i] == collected[i];
    }
  }

  lemma CollectKeepsMaximum(targets: seq<Target>, collected: seq<Target>, t: Target)
    requires IsMaximum(targets, collected)
    ensures IsMaximum(targets + [t], Collect(collected, t))
  {
    hide Collect, Answers, DistinctKeys;
    CollectDraws(targets, collected, t);
    forall i | 0 <= i < |targets + [t]| ensures Answers(Collect(collected, t), (targets + [t])[i]) {
      CollectAnswers(collected, t, (targets + [t])[i]);
    }
  }

  lemma {:induction false} CollectedIsMaximum(targets: seq<Target>)
    ensures IsMaximum(targets, Collected(targets))
  {
    hide Collect, IsMaximum;
    if targets == [] {
      NothingAsked();
    } else {
      var init, last := targets[..|targets| - 1], targets[|targets| - 1];
      CollectedIsMaximum(init);
      CollectKeepsMaximum(init, Collected(init), last);
      assert targets == init + [last];
    }
  }

  lemma NothingAsked()
    ensures IsMaximum([], [])
  {
  }

  lemma PermutationKeepsMaximum(targets: seq<Target>, a: seq<Target>, b: seq<Target>)
    requires IsMaximum(targets, a) && multiset(a) == multiset(b)
    ensures IsMaximum(targets, b)
  {
    hide DistinctKeys, Answers;
    PermutationDistinctKeys(a, b);
    forall i | 0 <= i < |b| ensures b[i] in targets {
      assert b[i] in multiset(a);
    }
    forall i | 0 <= i < |targets| ensures Answers(b, targets[i]) {
      PermutationAnswers(a, b, targets[i]);
    }
  }

  lemma PermutationAnswers(a: seq<Target>, b: seq<Target>, t: Target)
    requires Answers(a, t) && multiset(a) == multiset(b)
    ensures Answers(b, t)
  {
    var i :| 0 <= i < |a| && a[i].key == t.key && a[i].serverSequence >= t.serverSequence;
    assert a[i] in multiset(b);
    var j :| 0 <= j < |b| && b[j] == a[i];
  }

  lemma PermutationDistinctKeys(a: seq<Target>, b: seq<Target>)
    requires DistinctKeys(a) && multiset(a) == multiset(b)
    ensures DistinctKeys(b)
  {
    assert Sorting.Distinct(a);
    Sorting.PermutationDistinct(a, b);
    Sorting.PermutationMembers(a, b);
    forall i, j | 0 <= i < j < |b| ensures b[i].key != b[j].key {
      assert b[i] in b && b[j] in b;
      var x :| 0 <= x < |a| && a[x] == b[i];
      var y :| 0 <= y < |a| && a[y] == b[j];
    }
  }

  /** The normalised targets: each section once, the greatest sequence asked for, in order. */
  lemma NormalizedIsMaximum(targets: seq<Target>, rank: Rank)
    ensures IsMaximum(targets, Normalized(targets, rank))
    ensures Sorting.Sorted(Normalized(targets, rank), TargetRank(rank))
    ensures |Normalized(targets, rank)| == |Collected(targets)| && DistinctKeys(Normalized(targets, rank))
  {
    CollectedIsMaximum(targets);
    Sorting.SortSorts(Collected(targets), TargetRank(rank));
    PermutationKeepsMaximum(targets, Collected(targets), Normalized(targets, rank));
  }

  /** Normalising again changes nothing: the batch may hand its own list to the coverage check. */
  lemma NormalizeAgain(targets: seq<Target>, rank: Rank)
    requires DistinctKeys(targets) && Sorting.Sorted(targets, TargetRank(rank))
    ensures Normalized(targets, rank) == targets
  {
    CollectDistinct(targets);
    SortSorted(targets, TargetRank(rank));
  }

  lemma {:induction false} CollectDistinct(targets: seq<Target>)
    requires DistinctKeys(targets)
    ensures Collected(targets) == targets
  {
    if targets != [] {
      var init, last := targets[..|targets| - 1], targets[|targets| - 1];
      CollectDistinct(init);
      assert IndexOf(init, last.key) == |init|;
      assert targets == init + [last];
    }
  }

  lemma {:induction false} SortSorted<T>(s: seq<T>, key: T -> int)
    requires Sorting.Sorted(s, key)
    ensures Sorting.SortBy(s, key) == s
  {
    if s != [] {
      var init := s[..|s| - 1];
      SortSorted(init, key);
      assert s == init + [s[|s| - 1]];
    }
  }

  predicate AllValid(targets: seq<Target>) { forall i :: 0 <= i < |targets| ==> TargetValid(targets[i]) }

  method NormalizeTargets(targets: seq<Target>, rank: Rank) returns (result: Option<seq<Target>>)
    ensures result.Some? <==> AllValid(targets)
    ensures result.Some? <==> forall i :: 0 <= i < |targets| ==>
      targets[i].key.noteId != "" && targets[i].key.sectionId != "" && 1 <= targets[i].key.keyEpoch && 0 <= targets[i].serverSequence
    ensures result.Some? ==>
      && result.value == Normalized(targets, rank) && IsMaximum(targets, result.value)
      && Sorting.Sorted(result.value, TargetRank(rank)) && AllValid(result.value)
  {
    hide Collect, IsMaximum, TargetValid, Sorting.Sorted;
    ValidMeans(targets);
    var collected: seq<Target> := [];
    for i := 0 to |targets|
      invariant collected == Collected(targets[..i])
      invariant AllValid(targets[..i])
    {
      assert targets[..i + 1][..i] == targets[..i];
      if !TargetValid(targets[i]) {
        return None;
      }
      collected := Collect(collected, targets[i]);
    }
    assert targets[..|targets|] == targets;
    NormalizedIsMaximum(targets, rank);
    MaximumIsValid(targets, Normalized(targets, rank));
    return Some(Sorting.SortBy(collected, TargetRank(rank)));
  }

  lemma ValidMeans(targets: seq<Target>)
    ensures AllValid(targets) <==> forall i :: 0 <= i < |targets| ==>
      targets[i].key.noteId != "" && targets[i].key.sectionId != "" && 1 <= targets[i].key.keyEpoch && 0 <= targets[i].serverSequence
  {
  }

  lemma MaximumIsValid(targets: seq<Target>, result: seq<Target>)
    requires IsMaximum(targets, result) && AllValid(targets)
    ensures AllValid(result)
  {
    forall i | 0 <= i < |result| ensures TargetValid(result[i]) {
      assert result[i] in targets;
    }
  }

  // ----- coverage -----

  predicate Readable(records: Records, key: SectionKey) { key in records && records[key].payload.Some? }

  predicate Covers(records: Records, t: Target) {
    Readable(records, t.key) && records[t.key].indexedSequence >= t.serverSequence
  }

  datatype PendingSection = PendingSection(key: SectionKey, indexedSequence: int, targetSequence: int)

  datatype Coverage = Coverage(complete: bool, indexedSections: int, totalSections: nat, pending: seq<PendingSection>)

  function PendingOf(records: Records, t: Target): PendingSection {
    PendingSection(t.key, if Readable(records, t.key) then records[t.key].indexedSequence else 0, t.serverSequence)
  }

  /** The targets not covered, in order. */
  function PendingTargets(records: Records, targets: seq<Target>): (pending: seq<Target>)
    ensures |pending| <= |targets|
    ensures forall t :: t in pending <==> t in targets && !Covers(records, t)
  {
    if targets == [] then []
    else (if Covers(records, targets[0]) then [] else [targets[0]]) + PendingTargets(records, targets[1..])
  }

  function CoverageFor(records: Records, targets: seq<Target>): (c: Coverage)
    ensures c.complete <==> forall t :: t in targets ==> Covers(records, t)
    ensures c.complete <==> c.pending == []
    ensures c.indexedSections + |c.pending| == c.totalSections == |targets|
    ensures forall t :: t in targets && !Covers(records, t) ==> PendingOf(records, t) in c.pending
    ensures |c.pending| == |PendingTargets(records, targets)|
    ensures forall i :: 0 <= i < |c.pending| ==> c.pending[i] == PendingOf(records, PendingTargets(records, targets)[i])
  {
    var uncovered := PendingTargets(records, targets);
    var pending := seq(|uncovered|, i requires 0 <= i < |uncovered| => PendingOf(records, uncovered[i]));
    assert forall t :: t in targets && !Covers(records, t) ==> t in uncovered;
    assert forall i :: 0 <= i < |uncovered| ==> pending[i] == PendingOf(records, uncovered[i]) && pending[i] in pending;
    assert uncovered != [] ==> uncovered[0] in uncovered && uncovered[0] in targets;
    Coverage(|pending| == 0, |targets| - |pending|, |targets|, pending)
  }

  /** The section's record can be opened and is no older than the target. */
  predicate UpToTarget(records: Records, t: Target) {
    t.key in records && records[t.key].payload != None && t.serverSequence <= records[t.key].indexedSequence
  }

  /** What is reported of a target that is behind: its section, what it asks for, and how far its readable record is. */
  predicate Reports(records: Records, p: PendingSection, t: Target) {
    && p.key == t.key && p.targetSequence == t.serverSequence
    && p.indexedSequence == (if t.key in records && records[t.key].payload != None then records[t.key].indexedSequence else 0)
  }

  /** Complete means every target is up to date; otherwise those behind are reported, and nothing else. */
  ghost predicate CoverageAnswer(records: Records, targets: seq<Target>, c: Coverage) {
    && (c.complete <==> forall t :: t in targets ==> UpToTarget(records, t))
    && (c.complete <==> c.pending == [])
    && c.totalSections == |targets| && c.indexedSections == |targets| - |c.pending|
    && (forall p :: p in c.pending ==> exists t :: t in targets && !UpToTarget(records, t) && Reports(records, p, t))
    && (forall t :: t in targets && !UpToTarget(records, t) ==> exists p :: p in c.pending && Reports(records, p, t))
  }

  lemma CoverageTerms(records: Records, targets: seq<Target>)
    ensures CoverageAnswer(records, targets, CoverageFor(records, targets))
  {
    var c, uncovered := CoverageFor(records, targets), PendingTargets(records, targets);
    forall t ensures UpToTarget(records, t) <==> Covers(records, t) {
    }
    forall p | p in c.pending ensures exists t :: t in targets && !UpToTarget(records, t) && Reports(records, p, t) {
      var i :| 0 <= i < |c.pending| && c.pending[i] == p;
      assert uncovered[i] in uncovered && Reports(records, p, uncovered[i]);
    }
    forall t | t in targets && !UpToTarget(records, t) ensures exists p :: p in c.pending && Reports(records, p, t) {
      assert Reports(records, PendingOf(records, t), t);
    }
  }

  lemma {:induction false} PendingDistinct(records: Records, targets: seq<Target>)
    requires DistinctKeys(targets)
    ensures DistinctKeys(PendingTargets(records, targets))
  {
    if targets != [] {
      var rest := PendingTargets(records, targets[1..]);
      PendingDistinct(records, targets[1..]);
      forall j | 0 <= j < |rest| ensures rest[j].key != targets[0].key {
        assert rest[j] in targets[1..];
      }
    }
  }

  method CoverageOf(index: ProtectedSearchIndex, targets: seq<Target>, rank: Rank) returns (coverage: Option<Coverage>)
    ensures coverage.Some? <==> AllValid(targets)
    ensures coverage.Some? ==> coverage.value == CoverageFor(index.database.records, Normalized(targets, rank))
    ensures coverage.Some? ==> CoverageAnswer(index.database.records, Normalized(targets, rank), coverage.value)
  {
    hide CoverageAnswer;
    var normalized := NormalizeTargets(targets, rank);
    if normalized.None? {
      return None;
    }
    CoverageTerms(index.database.records, normalized.value);
    return Some(CoverageFor(index.database.records, normalized.value));
  }

  // ----- one batch -----

  /** What loading a section gives; None when it throws. */
  type Loader = Target -> Option<SectionUpdate>

  predicate LoadMatches(t: Target, loaded: SectionUpdate) {
    UpdateValid(loaded) && loaded.key == t.key && loaded.serverSequence >= t.serverSequence
  }

  /** What becomes of a target when its turn comes: it is indexed, skipped, or ends the call by throwing. */
  datatype Fate = Indexed | Passed | Throws

  function FateOf(records: Records, t: Target, load: Loader): Fate {
    var loaded := load(t);
    if loaded.None? || !LoadMatches(t, loaded.value) then Throws
    else if Newer(records, loaded.value) then Passed
    else if BlocksValid(loaded.value.blocks) then Indexed
    else Throws
  }

  /** Loading and applying one target. */
  function Turn(tk: Tokenizer, records: Records, t: Target, load: Loader): Records {
    if FateOf(records, t, load) == Indexed then Put(records, t.key, NewRecord(tk, records, load(t).value)) else records
  }

  /** The batch's targets one after the other, up to one that throws. */
  function BatchRun(tk: Tokenizer, records: Records, batch: seq<Target>, load: Loader): (Records, bool)
    decreases |batch|
  {
    if batch == [] then (records, true)
    else if FateOf(records, batch[0], load) == Throws then (records, false)
    else BatchRun(tk, Turn(tk, records, batch[0], load), batch[1..], load)
  }

  function Batch(records: Records, targets: seq<Target>, limit: nat): seq<Target> {
    var pending := PendingTargets(records, targets);
    pending[..Min(limit, |pending|)]
  }

  /** buildNextBatch: load and apply the first few pending sections in order. */
  method BuildNextBatch(index: ProtectedSearchIndex, targets: seq<Target>, rank: Rank, load: Loader)
      returns (coverage: Option<Coverage>)
    modifies index.database
    ensures !AllValid(targets) ==> coverage.None? && index.database.records == old(index.database.records)
    ensures AllValid(targets) ==>
      var goals := Normalized(targets, rank);
      var run := BatchRun(index.tk, old(index.database.records), Batch(old(index.database.records), goals, index.maxSectionsPerBatch), load);
      index.database.records == run.0 && coverage == if run.1 then Some(CoverageFor(run.0, goals)) else None
  {
    hide CoverageFor, IsMaximum, TargetValid, Sorting.Sorted, FateOf;
    var normalized := NormalizeTargets(targets, rank);
    if normalized.None? {
      return None;
    }
    var goals := normalized.value;
    NormalizedIsMaximum(targets, rank);
    NormalizeAgain(goals, rank);
    var current := CoverageOf(index, goals, rank);
    var batch := Batch(index.database.records, goals, index.maxSectionsPerBatch);
    ghost var before := index.database.records;
    for i := 0 to |batch|
      invariant BatchRun(index.tk, before, batch, load) == BatchRun(index.tk, index.database.records, batch[i..], load)
    {
      assert batch[i..][0] == batch[i] && batch[i..][1..] == batch[i + 1..];
      var applied := LoadAndApply(index, batch[i], load);
      if !applied {
        return None;
      }
    }
    coverage := CoverageOf(index, goals, rank);
  }

  method LoadAndApply(index: ProtectedSearchIndex, t: Target, load: Loader) returns (applied: bool)
    modifies index.database
    ensures applied <==> FateOf(old(index.database.records), t, load) != Throws
    ensures index.database.records == Turn(index.tk, old(index.database.records), t, load)
  {
    hide BlocksValid, IsChanged, NewRecord;
    var loaded := load(t);
    if loaded.None? || !LoadMatches(t, loaded.value) {
      return false;
    }
    var outcome := index.ApplySection(loaded.value, []);
    return !outcome.Invalid?;
  }

  /** A record that is newer than what is loaded for a pending target cannot be opened, so the target stays pending. */
  lemma TurnCovers(tk: Tokenizer, records: Records, t: Target, load: Loader)
    requires FateOf(records, t, load) != Throws && !Covers(records, t)
    ensures Covers(Turn(tk, records, t, load), t) <==> FateOf(records, t, load) == Indexed
    ensures forall key :: key in records && key != t.key ==> key in Turn(tk, records, t, load) && Turn(tk, records, t, load)[key] == records[key]
    ensures forall key :: key in Turn(tk, records, t, load) && key != t.key ==> key in records
    ensures FateOf(records, t, load) == Passed ==> Turn(tk, records, t, load) == records && records[t.key].payload.None?
  {
    hide BlocksValid, Rebuilt, ById;
  }

  // ----- queries -----

  predicate AllTerms(terms: seq<string>, queryTerms: seq<string>) {
    forall i :: 0 <= i < |queryTerms| ==> queryTerms[i] in terms
  }

  function MatchOf(key: SectionKey, sequence: int, e: Entry): Match { Match(key.noteId, key.sectionId, e.blockId, sequence, e.excerpt) }

  /** The matches of one record, in block order. */
  function MatchesIn(key: SectionKey, sequence: int, entries: seq<Entry>, queryTerms: seq<string>): seq<Match> {
    if entries == [] then []
    else
      var init, e := entries[..|entries| - 1], entries[|entries| - 1];
      MatchesIn(key, sequence, init, queryTerms) + (if AllTerms(e.terms, queryTerms) then [MatchOf(key, sequence, e)] else [])
  }

  predicate Asked(targets: seq<Target>, key: SectionKey) { exists t :: t in targets && t.key == key }

  /** The matches of the readable target records among `keys`. */
  function AllMatches(records: Records, targets: seq<Target>, keys: seq<SectionKey>, queryTerms: seq<string>): seq<Match> {
    if keys == [] then []
    else
      var init, key := keys[..|keys| - 1], keys[|keys| - 1];
      AllMatches(records, targets, init, queryTerms)
      + (if Readable(records, key) && Asked(targets, key)
         then MatchesIn(key, records[key].indexedSequence, records[key].payload.value, queryTerms) else [])
  }

  /** query: every match of the readable target records, sorted, each as often as it occurs. */
  method Query(index: ProtectedSearchIndex, text: string, targets: seq<Target>, rank: Rank, matchRank: Match -> int)
      returns (coverage: Option<Coverage>, matches: seq<Match>, ghost keys: seq<SectionKey>)
    ensures coverage.Some? <==> AllValid(targets)
    ensures coverage.Some? ==> coverage.value == CoverageFor(index.database.records, Normalized(targets, rank))
    ensures coverage.Some? ==>
      && Lists(index.database.records, keys) && Sorting.Sorted(keys, rank)
      && matches == if index.tk.terms(text) == [] then []
                    else Sorting.SortBy(AllMatches(index.database.records, Normalized(targets, rank), keys, index.tk.terms(text)), matchRank)
  {
    hide CoverageFor, IsMaximum, TargetValid, Sorting.Sorted, Sorting.SortBy, Lists;
    var queryTerms := index.tk.terms(text);
    matches, keys := [], [];
    var normalized := NormalizeTargets(targets, rank);
    if normalized.None? {
      return None, [], [];
    }
    var goals, records := normalized.value, index.database.records;
    var listed := index.database.ListSearchIndex(rank);
    keys := listed;
    if queryTerms != [] {
      for i := 0 to |listed|
        invariant matches == AllMatches(records, goals, listed[..i], queryTerms)
      {
        assert listed[..i + 1][..i] == listed[..i];
        if Readable(records, listed[i]) {
          var asked := IsAsked(goals, listed[i]);
          if asked {
            var more := Matching(listed[i], records[listed[i]].indexedSequence, records[listed[i]].payload.value, queryTerms);
            matches := matches + more;
          }
        }
      }
      assert listed[..|listed|] == listed;
      matches := Sorting.SortBy(matches, matchRank);
    }
    coverage := Some(CoverageFor(records, goals));
  }

  method IsAsked(targets: seq<Target>, key: SectionKey) returns (asked: bool)
    ensures asked <==> Asked(targets, key)
  {
    for i := 0 to |targets|
      invariant forall j :: 0 <= j < i ==> targets[j].key != key
    {
      if targets[i].key == key {
        return true;
      }
    }
    return false;
  }

  method Matching(key: SectionKey, sequence: int, entries: seq<Entry>, queryTerms: seq<string>) returns (matches: seq<Match>)
    ensures matches == MatchesIn(key, sequence, entries, queryTerms)
  {
    matches := [];
    for i := 0 to |entries|
      invariant matches == MatchesIn(key, sequence, entries[..i], queryTerms)
    {
      assert entries[..i + 1][..i] == entries[..i];
      if AllTerms(entries[i].terms, queryTerms) {
        matches := matches + [MatchOf(key, sequence, entries[i])];
      }
    }
    assert entries[..|entries|] == entries;
  }

  // ----- queries against a plain scan -----

  /** A plain scan of a document's blocks. */
  function Scan(tk: Tokenizer, u: SectionUpdate, blocks: seq<Block>, queryTerms: seq<string>): seq<Match> {
    if blocks == [] then []
    else
      var init, block := blocks[..|blocks| - 1], blocks[|blocks| - 1];
      Scan(tk, u, init, queryTerms)
      + (if AllTerms(tk.terms(block.text), queryTerms)
         then [Match(u.key.noteId, u.key.sectionId, block.blockId, u.serverSequence, tk.excerpt(block.text))] else [])
  }

  /** The block has every word of the query, and the match says where it is and what it shows. */
  ghost predicate Finds(tk: Tokenizer, u: SectionUpdate, block: Block, queryTerms: seq<string>, m: Match) {
    && (forall word :: word in queryTerms ==> word in tk.terms(block.text))
    && m.noteId == u.key.noteId && m.sectionId == u.key.sectionId && m.blockId == block.blockId
    && m.indexedSequence == u.serverSequence && m.excerpt == tk.excerpt(block.text)
  }

  lemma {:induction false} ScanFinds(tk: Tokenizer, u: SectionUpdate, blocks: seq<Block>, queryTerms: seq<string>, m: Match)
    ensures m in Scan(tk, u, blocks, queryTerms) <==> exists i :: 0 <= i < |blocks| && Finds(tk, u, blocks[i], queryTerms, m)
  {
    hide Finds;
    if blocks != [] {
      var init, last := blocks[..|blocks| - 1], |blocks| - 1;
      ScanFinds(tk, u, init, queryTerms, m);
      FindsLast(tk, u, blocks[last], queryTerms, m);
      assert forall i :: 0 <= i < last ==> init[i] == blocks[i];
    }
  }

  lemma FindsLast(tk: Tokenizer, u: SectionUpdate, block: Block, queryTerms: seq<string>, m: Match)
    ensures Finds(tk, u, block, queryTerms, m)
      <==> (AllTerms(tk.terms(block.text), queryTerms)
            && m == Match(u.key.noteId, u.key.sectionId, block.blockId, u.serverSequence, tk.excerpt(block.text)))
  {
    forall word | AllTerms(tk.terms(block.text), queryTerms) && word in queryTerms ensures word in tk.terms(block.text) {
      var i :| 0 <= i < |queryTerms| && queryTerms[i] == word;
    }
  }

  /** The scans of the documents of the target sections among `keys`. */
  function AllScans(tk: Tokenizer, documents: map<SectionKey, SectionUpdate>, targets: seq<Target>, keys: seq<SectionKey>,
      queryTerms: seq<string>): seq<Match>
  {
    if keys == [] then []
    else
      var init, key := keys[..|keys| - 1], keys[|keys| - 1];
      AllScans(tk, documents, targets, init, queryTerms)
      + (if key in documents && Asked(targets, key) then Scan(tk, documents[key], documents[key].blocks, queryTerms) else [])
  }

  lemma {:induction false} FreshMatchesAreScan(tk: Tokenizer, u: SectionUpdate, blocks: seq<Block>, queryTerms: seq<string>)
    ensures MatchesIn(u.key, u.serverSequence, FreshBuild(tk, blocks), queryTerms) == Scan(tk, u, blocks, queryTerms)
  {
    hide AllTerms;
    if blocks != [] {
      var init := blocks[..|blocks| - 1];
      FreshMatchesAreScan(tk, u, init, queryTerms);
      assert FreshBuild(tk, blocks)[..|blocks| - 1] == FreshBuild(tk, init);
    }
  }

  lemma {:induction false} MirrorMatchesAreScans(tk: Tokenizer, records: Records, documents: map<SectionKey, SectionUpdate>,
      targets: seq<Target>, keys: seq<SectionKey>, queryTerms: seq<string>)
    requires Mirrors(tk, records, documents)
    ensures AllMatches(records, targets, keys, queryTerms) == AllScans(tk, documents, targets, keys, queryTerms)
  {
    hide MatchesIn, Scan, FreshBuild, Asked;
    if keys != [] {
      var key := keys[|keys| - 1];
      MirrorMatchesAreScans(tk, records, documents, targets, keys[..|keys| - 1], queryTerms);
      if key in documents {
        FreshMatchesAreScan(tk, documents[key], documents[key].blocks, queryTerms);
      }
    }
  }

  lemma {:induction false} AllScansFind(tk: Tokenizer, documents: map<SectionKey, SectionUpdate>, targets: seq<Target>, keys: seq<SectionKey>,
      queryTerms: seq<string>, m: Match)
    ensures m in AllScans(tk, documents, targets, keys, queryTerms) <==> exists key :: InDocument(tk, documents, targets, keys, queryTerms, m, key)
  {
    hide Finds, Scan, InDocument;
    if keys != [] {
      var init, last := keys[..|keys| - 1], keys[|keys| - 1];
      AllScansFind(tk, documents, targets, init, queryTerms, m);
      ScanOfOne(tk, documents, targets, init, queryTerms, m, last);
      assert keys == init + [last];
      if key :| InDocument(tk, documents, targets, keys, queryTerms, m, key) {
        ScanOfAny(tk, documents, targets, init, queryTerms, m, last, key);
      }
    } else if key :| InDocument(tk, documents, targets, keys, queryTerms, m, key) {
      InListing(tk, documents, targets, keys, queryTerms, m, key);
    }
  }

  lemma InListing(tk: Tokenizer, documents: map<SectionKey, SectionUpdate>, targets: seq<Target>, keys: seq<SectionKey>,
      queryTerms: seq<string>, m: Match, key: SectionKey)
    requires InDocument(tk, documents, targets, keys, queryTerms, m, key)
    ensures key in keys
  {
  }

  /** What the last listed section adds. */
  lemma ScanOfOne(tk: Tokenizer, documents: map<SectionKey, SectionUpdate>, targets: seq<Target>, init: seq<SectionKey>,
      queryTerms: seq<string>, m: Match, last: SectionKey)
    ensures (last in documents && Asked(targets, last) && m in Scan(tk, documents[last], documents[last].blocks, queryTerms))
      <==> InDocument(tk, documents, targets, init + [last], queryTerms, m, last)
    ensures forall key :: InDocument(tk, documents, targets, init, queryTerms, m, key) ==>
      InDocument(tk, documents, targets, init + [last], queryTerms, m, key)
  {
    hide Finds, Scan;
    if last in documents {
      ScanFinds(tk, documents[last], documents[last].blocks, queryTerms, m);
    }
    assert (init + [last])[|init|] == last;
  }

  lemma ScanOfAny(tk: Tokenizer, documents: map<SectionKey, SectionUpdate>, targets: seq<Target>, init: seq<SectionKey>,
      queryTerms: seq<string>, m: Match, last: SectionKey, key: SectionKey)
    requires InDocument(tk, documents, targets, init + [last], queryTerms, m, key)
    ensures key == last || InDocument(tk, documents, targets, init, queryTerms, m, key)
  {
    hide Finds;
  }

  /** A listed section that is among the targets has a block that the query finds. */
  ghost predicate InDocument(tk: Tokenizer, documents: map<SectionKey, SectionUpdate>, targets: seq<Target>, keys: seq<SectionKey>,
      queryTerms: seq<string>, m: Match, key: SectionKey)
  {
    && key in keys && key in documents && (exists t :: t in targets && t.key == key)
    && exists i :: 0 <= i < |documents[key].blocks| && Finds(tk, documents[key], documents[key].blocks[i], queryTerms, m)
  }

  /**
   After any run of applies, a query finds a match if and only if some block of the document last
   applied to a target's section has every word of the query, and the match names that block.
   */
  lemma QueryFindsIff(tk: Tokenizer, applies: seq<Apply>, n: nat, targets: seq<Target>, keys: seq<SectionKey>, queryTerms: seq<string>,
      matchRank: Match -> int, m: Match)
    requires CollisionFree(tk) && n <= |applies| && Lists(After(tk, applies, n), keys)
    ensures m in Sorting.SortBy(AllMatches(After(tk, applies, n), targets, keys, queryTerms), matchRank)
      <==> exists key :: InDocument(tk, LastApplied(tk, applies, n), targets, keys, queryTerms, m, key)
  {
    hide CollisionFree, AllMatches, AllScans, InDocument, Sorting.SortBy;
    QueryIsAScan(tk, applies, n, targets, keys, queryTerms, matchRank);
    var scans := AllScans(tk, LastApplied(tk, applies, n), targets, keys, queryTerms);
    AllScansFind(tk, LastApplied(tk, applies, n), targets, keys, queryTerms, m);
    Sorting.SortSorts(scans, matchRank);
    Sorting.PermutationMembers(Sorting.SortBy(scans, matchRank), scans);
  }

  /**
   After any run of applies, with reads as stale as one likes, a query answers exactly the scans of
   the documents last applied: the same matches, equally often, in the same order.
   */
  lemma QueryIsAScan(tk: Tokenizer, applies: seq<Apply>, n: nat, targets: seq<Target>, keys: seq<SectionKey>, queryTerms: seq<string>,
      matchRank: Match -> int)
    requires CollisionFree(tk) && n <= |applies|
    ensures Sorting.SortBy(AllMatches(After(tk, applies, n), targets, keys, queryTerms), matchRank)
      == Sorting.SortBy(AllScans(tk, LastApplied(tk, applies, n), targets, keys, queryTerms), matchRank)
    ensures forall key :: key in After(tk, applies, n) <==> key in LastApplied(tk, applies, n)
  {
    hide CollisionFree, AllMatches, AllScans;
    RunMirrorsApplied(tk, applies, n);
    MirrorMatchesAreScans(tk, After(tk, applies, n), LastApplied(tk, applies, n), targets, keys, queryTerms);
  }
}
