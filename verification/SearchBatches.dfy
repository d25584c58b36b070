/**
 Background batches over many calls: which pending sections are ever indexed, which starve behind
 others, and after how many calls a set of targets is complete.
 */
module SearchBatches {
  import opened Basics
  import opened SearchIndex
  import opened SearchRebuild
  import opened SearchCoverage

  // ----- the pending list as a queue -----

  type Fates = Target -> Fate

  /** The targets that a call passes over without covering them. */
  function Stuck(pending: seq<Target>, fate: Fates): seq<Target> {
    if pending == [] then []
    else (if fate(pending[0]) == Passed then [pending[0]] else []) + Stuck(pending[1..], fate)
  }

  /** How many come before the first that throws. */
  function BeforeThrow(pending: seq<Target>, fate: Fates): (n: nat)
    ensures n <= |pending|
    ensures forall i :: 0 <= i < n ==> fate(pending[i]) != Throws
    ensures n < |pending| ==> fate(pending[n]) == Throws
  {
    if pending == [] || fate(pending[0]) == Throws then 0 else 1 + BeforeThrow(pending[1..], fate)
  }

  /** How far a call gets. */
  function Reached(pending: seq<Target>, limit: nat, fate: Fates): (n: nat)
    ensures n <= |pending| && n <= limit
  {
    BeforeThrow(pending[..Min(limit, |pending|)], fate)
  }

  function NextPending(pending: seq<Target>, limit: nat, fate: Fates): seq<Target> {
    var n := Reached(pending, limit, fate);
    Stuck(pending[..n], fate) + pending[n..]
  }

  function PendingAfter(pending: seq<Target>, limit: nat, fate: Fates, calls: nat): seq<Target>
    decreases calls
  {
    if calls == 0 then pending else PendingAfter(NextPending(pending, limit, fate), limit, fate, calls - 1)
  }

  lemma {:induction false} StuckOf(pending: seq<Target>, fate: Fates)
    ensures |Stuck(pending, fate)| <= |pending|
    ensures forall t :: t in Stuck(pending, fate) <==> t in pending && fate(t) == Passed
    ensures Stuck(Stuck(pending, fate), fate) == Stuck(pending, fate)
  {
    if pending != [] {
      StuckOf(pending[1..], fate);
      if fate(pending[0]) == Passed {
        var stuck := Stuck(pending, fate);
        assert stuck[0] == pending[0] && stuck[1..] == Stuck(pending[1..], fate);
        assert Stuck(stuck, fate) == [stuck[0]] + Stuck(stuck[1..], fate);
      } else {
        assert Stuck(pending, fate) == Stuck(pending[1..], fate);
      }
    }
  }

  lemma {:induction false} StuckAppend(a: seq<Target>, b: seq<Target>, fate: Fates)
    ensures Stuck(a + b, fate) == Stuck(a, fate) + Stuck(b, fate)
  {
    if a == [] {
      assert a + b == b;
    } else {
      assert (a + b)[1..] == a[1..] + b;
      StuckAppend(a[1..], b, fate);
    }
  }

  lemma {:induction false} StuckDistinct(pending: seq<Target>, fate: Fates)
    requires DistinctKeys(pending)
    ensures DistinctKeys(Stuck(pending, fate))
  {
    if pending != [] {
      StuckDistinct(pending[1..], fate);
      StuckOf(pending[1..], fate);
      var rest := Stuck(pending[1..], fate);
      forall j | 0 <= j < |rest| ensures rest[j].key != pending[0].key {
        assert rest[j] in pending[1..];
      }
    }
  }

  lemma NextIsDistinct(pending: seq<Target>, limit: nat, fate: Fates)
    requires DistinctKeys(pending)
    ensures DistinctKeys(NextPending(pending, limit, fate))
    ensures forall t :: t in NextPending(pending, limit, fate) ==> t in pending
  {
    hide Stuck, Reached;
    var n := Reached(pending, limit, fate);
    var stuck := Stuck(pending[..n], fate);
    StuckOf(pending[..n], fate);
    StuckDistinct(pending[..n], fate);
    forall i, j | 0 <= i < |stuck| && n <= j < |pending| ensures stuck[i].key != pending[j].key {
      assert stuck[i] in pending[..n];
    }
  }

  /** Whether the target at position i can still be reached. */
  ghost predicate Reachable(pending: seq<Target>, limit: nat, fate: Fates, i: nat)
    requires i < |pending|
  {
    && fate(pending[i]) == Indexed
    && (forall j :: 0 <= j < i ==> fate(pending[j]) != Throws)
    && |Stuck(pending[..i], fate)| < limit
  }

  /** A target beyond what a call reaches moves up, with the same obstacles before it. */
  lemma MovesUp(pending: seq<Target>, limit: nat, fate: Fates, i: nat) returns (at: nat)
    requires i < |pending| && Reached(pending, limit, fate) <= i
    ensures at < |NextPending(pending, limit, fate)| && NextPending(pending, limit, fate)[at] == pending[i]
    ensures at == i - Reached(pending, limit, fate) + |Stuck(pending[..Reached(pending, limit, fate)], fate)|
    ensures Reachable(NextPending(pending, limit, fate), limit, fate, at) <==> Reachable(pending, limit, fate, i)
  {
    hide Stuck, Reached;
    var n := Reached(pending, limit, fate);
    var stuck, next := Stuck(pending[..n], fate), NextPending(pending, limit, fate);
    at := |stuck| + (i - n);
    assert next[..at] == stuck + pending[n..i];
    assert pending[..i] == pending[..n] + pending[n..i];
    StuckAppend(stuck, pending[n..i], fate);
    StuckAppend(pending[..n], pending[n..i], fate);
    StuckOf(pending[..n], fate);
    NoThrowReached(pending, limit, fate);
    if forall j :: 0 <= j < at ==> fate(next[j]) != Throws {
      forall j | 0 <= j < i ensures fate(pending[j]) != Throws {
        if j >= n {
          assert next[|stuck| + (j - n)] == pending[j];
        }
      }
    }
    if forall j :: 0 <= j < i ==> fate(pending[j]) != Throws {
      forall j | 0 <= j < at ensures fate(next[j]) != Throws {
        if j < |stuck| {
          assert stuck[j] in stuck;
        } else {
          assert next[j] == pending[n + (j - |stuck|)];
        }
      }
    }
  }

  lemma NoThrowReached(pending: seq<Target>, limit: nat, fate: Fates)
    ensures forall j :: 0 <= j < Reached(pending, limit, fate) ==> fate(pending[j]) != Throws
    ensures Reached(pending, limit, fate) < Min(limit, |pending|) ==> fate(pending[Reached(pending, limit, fate)]) == Throws
  {
    var window := pending[..Min(limit, |pending|)];
    var n := BeforeThrow(window, fate);
    assert forall j :: 0 <= j < |window| ==> window[j] == pending[j];
  }

  /** An unreachable target is pending after every call. */
  lemma {:induction false} StaysPending(pending: seq<Target>, limit: nat, fate: Fates, i: nat, calls: nat)
    requires i < |pending| && !Reachable(pending, limit, fate, i)
    ensures pending[i] in PendingAfter(pending, limit, fate, calls)
    decreases calls
  {
    hide Stuck, Reached, Reachable, NextPending;
    if calls > 0 {
      var at := StillUnreachable(pending, limit, fate, i);
      StaysPending(NextPending(pending, limit, fate), limit, fate, at, calls - 1);
    }
  }

  lemma StillUnreachable(pending: seq<Target>, limit: nat, fate: Fates, i: nat) returns (at: nat)
    requires i < |pending| && !Reachable(pending, limit, fate, i)
    ensures at < |NextPending(pending, limit, fate)| && NextPending(pending, limit, fate)[at] == pending[i]
    ensures !Reachable(NextPending(pending, limit, fate), limit, fate, at)
  {
    hide Stuck, Reached;
    var n := Reached(pending, limit, fate);
    NoThrowReached(pending, limit, fate);
    if n <= i {
      at := MovesUp(pending, limit, fate, i);
    } else {
      StuckOf(pending[..i], fate);
      StuckOf(pending[..n], fate);
      assert fate(pending[i]) == Passed;
      assert pending[i] in pending[..n];
      at :| 0 <= at < |Stuck(pending[..n], fate)| && Stuck(pending[..n], fate)[at] == pending[i];
    }
  }

  /** A reachable one is gone after at most one call more than there are targets before it. */
  lemma {:induction false} IsReached(pending: seq<Target>, limit: nat, fate: Fates, i: nat) returns (calls: nat)
    requires DistinctKeys(pending) && i < |pending| && Reachable(pending, limit, fate, i)
    ensures calls <= i + 1 && pending[i] !in PendingAfter(pending, limit, fate, calls)
    decreases i
  {
    hide Stuck, Reached, NextPending, DistinctKeys;
    var n := Reached(pending, limit, fate);
    NoThrowReached(pending, limit, fate);
    var next := NextPending(pending, limit, fate);
    NextIsDistinct(pending, limit, fate);
    if i < n {
      GoneNow(pending, limit, fate, i);
      assert PendingAfter(next, limit, fate, 0) == next;
      calls := 1;
    } else {
      assert n == limit;
      var at := MovesUp(pending, limit, fate, i);
      StuckAppend(pending[..n], pending[n..i], fate);
      assert pending[..i] == pending[..n] + pending[n..i];
      var rest := IsReached(next, limit, fate, at);
      calls := rest + 1;
    }
  }

  lemma GoneNow(pending: seq<Target>, limit: nat, fate: Fates, i: nat)
    requires DistinctKeys(pending) && i < Reached(pending, limit, fate) && fate(pending[i]) == Indexed
    ensures pending[i] !in NextPending(pending, limit, fate)
  {
    hide Stuck, Reached;
    var n := Reached(pending, limit, fate);
    StuckOf(pending[..n], fate);
    forall j | n <= j < |pending| ensures pending[j] != pending[i] {
      assert pending[i].key != pending[j].key;
    }
  }

  /** When nothing stands in the way the queue loses one full batch a call. */
  lemma {:induction false} QueueDrains(pending: seq<Target>, limit: nat, fate: Fates, calls: nat)
    requires forall t :: t in pending ==> fate(t) == Indexed
    ensures |PendingAfter(pending, limit, fate, calls)| == Max(0, |pending| - calls * limit)
    decreases calls
  {
    hide Stuck, Reached;
    if calls > 0 {
      var n := Reached(pending, limit, fate);
      NoThrowReached(pending, limit, fate);
      StuckOf(pending[..n], fate);
      assert n == Min(limit, |pending|) by {
        assert n < |pending| ==> pending[n] in pending;
      }
      assert Stuck(pending[..n], fate) == [] by { NoneStuck(pending[..n], fate); }
      assert NextPending(pending, limit, fate) == pending[n..];
      QueueDrains(pending[n..], limit, fate, calls - 1);
      assert calls * limit == (calls - 1) * limit + limit;
    }
  }

  lemma {:induction false} NoneStuck(pending: seq<Target>, fate: Fates)
    requires forall t :: t in pending ==> fate(t) == Indexed
    ensures Stuck(pending, fate) == []
  {
    if pending != [] {
      NoneStuck(pending[1..], fate);
    }
  }

  /** What a call leaves depends only on what becomes of the pending targets. */
  lemma {:induction false} SameFates(pending: seq<Target>, f: Fates, g: Fates)
    requires forall t :: t in pending ==> f(t) == g(t)
    ensures Stuck(pending, f) == Stuck(pending, g) && BeforeThrow(pending, f) == BeforeThrow(pending, g)
  {
    if pending != [] {
      SameFates(pending[1..], f, g);
    }
  }

  lemma {:induction false} SameFatesSameQueue(pending: seq<Target>, limit: nat, f: Fates, g: Fates, calls: nat)
    requires DistinctKeys(pending) && forall t :: t in pending ==> f(t) == g(t)
    ensures PendingAfter(pending, limit, f, calls) == PendingAfter(pending, limit, g, calls)
    decreases calls
  {
    hide DistinctKeys;
    if calls > 0 {
      SameFates(pending[..Min(limit, |pending|)], f, g);
      SameFates(pending[..Reached(pending, limit, f)], f, g);
      assert NextPending(pending, limit, f) == NextPending(pending, limit, g);
      NextIsDistinct(pending, limit, f);
      SameFatesSameQueue(NextPending(pending, limit, f), limit, f, g, calls - 1);
    }
  }

  // ----- the store follows the queue -----

  function FatesIn(records: Records, load: Loader): Fates { (t: Target) => FateOf(records, t, load) }

  predicate SameRecord(a: Records, b: Records, key: SectionKey) { (key in a <==> key in b) && (key in a ==> a[key] == b[key]) }

  lemma TurnTouches(tk: Tokenizer, records: Records, t: Target, load: Loader, key: SectionKey)
    requires key != t.key
    ensures SameRecord(Turn(tk, records, t, load), records, key)
  {
    hide BlocksValid, NewRecord;
  }

  lemma {:induction false} BatchTouches(tk: Tokenizer, records: Records, batch: seq<Target>, load: Loader, key: SectionKey)
    requires forall t :: t in batch ==> t.key != key
    ensures SameRecord(BatchRun(tk, records, batch, load).0, records, key)
    decreases |batch|
  {
    hide FateOf, Turn;
    if batch != [] && FateOf(records, batch[0], load) != Throws {
      TurnTouches(tk, records, batch[0], load, key);
      BatchTouches(tk, Turn(tk, records, batch[0], load), batch[1..], load, key);
    }
  }

  /** A turn changes nothing for the targets after it. */
  lemma LaterFates(tk: Tokenizer, records: Records, batch: seq<Target>, load: Loader)
    requires DistinctKeys(batch) && batch != []
    ensures forall t :: t in batch[1..] ==> FateOf(Turn(tk, records, batch[0], load), t, load) == FateOf(records, t, load)
    ensures forall t :: t in batch[1..] && !Covers(records, t) ==> !Covers(Turn(tk, records, batch[0], load), t)
    ensures forall t :: t in batch[1..] ==> t.key != batch[0].key && SameRecord(Turn(tk, records, batch[0], load), records, t.key)
  {
    hide FateOf, Covers, Turn, SameRecord;
    forall t | t in batch[1..]
      ensures t.key != batch[0].key && SameRecord(Turn(tk, records, batch[0], load), records, t.key)
      ensures FateOf(Turn(tk, records, batch[0], load), t, load) == FateOf(records, t, load)
      ensures !Covers(records, t) ==> !Covers(Turn(tk, records, batch[0], load), t)
    {
      var j :| 0 <= j < |batch[1..]| && batch[1..][j] == t;
      assert batch[j + 1] == t;
      TurnTouches(tk, records, batch[0], load, t.key);
      SameRecordSameFate(Turn(tk, records, batch[0], load), records, t, load);
    }
  }

  /** A call throws exactly when a target of its batch does. */
  lemma {:induction false} BatchSucceedsIff(tk: Tokenizer, records: Records, batch: seq<Target>, load: Loader)
    requires DistinctKeys(batch)
    ensures BatchRun(tk, records, batch, load).1 <==> BeforeThrow(batch, FatesIn(records, load)) == |batch|
    decreases |batch|
  {
    hide FateOf, Turn, Covers;
    if batch != [] && FateOf(records, batch[0], load) != Throws {
      var next := Turn(tk, records, batch[0], load);
      LaterFates(tk, records, batch, load);
      BatchSucceedsIff(tk, next, batch[1..], load);
      SameFates(batch[1..], FatesIn(next, load), FatesIn(records, load));
    }
  }

  /** What a batch does with each of its targets: covers it if its turn comes and it is indexed, else leaves its record. */
  lemma {:induction false} BatchAt(tk: Tokenizer, records: Records, batch: seq<Target>, load: Loader, i: nat)
    requires DistinctKeys(batch) && i < |batch| && !Covers(records, batch[i])
    ensures if i < BeforeThrow(batch, FatesIn(records, load)) && FateOf(records, batch[i], load) == Indexed
            then Covers(BatchRun(tk, records, batch, load).0, batch[i])
            else SameRecord(BatchRun(tk, records, batch, load).0, records, batch[i].key)
    decreases |batch|
  {
    hide FateOf, Turn, Covers, SameRecord;
    if FateOf(records, batch[0], load) == Throws {
      assert SameRecord(records, records, batch[i].key) by { Reflexive(records, batch[i].key); }
    } else {
      var next, rest := Turn(tk, records, batch[0], load), batch[1..];
      LaterFates(tk, records, batch, load);
      SameFates(rest, FatesIn(next, load), FatesIn(records, load));
      if i == 0 {
        FirstTurn(tk, records, batch, load);
      } else {
        assert rest[i - 1] == batch[i] && batch[i] in rest;
        BatchAt(tk, next, rest, load, i - 1);
        if !(i < BeforeThrow(batch, FatesIn(records, load)) && FateOf(records, batch[i], load) == Indexed) {
          Transitive(BatchRun(tk, next, rest, load).0, next, records, batch[i].key);
        }
      }
    }
  }

  lemma Reflexive(records: Records, key: SectionKey)
    ensures SameRecord(records, records, key)
  {
  }

  lemma Transitive(a: Records, b: Records, c: Records, key: SectionKey)
    requires SameRecord(a, b, key) && SameRecord(b, c, key)
    ensures SameRecord(a, c, key)
  {
  }

  lemma FirstTurn(tk: Tokenizer, records: Records, batch: seq<Target>, load: Loader)
    requires DistinctKeys(batch) && batch != [] && !Covers(records, batch[0]) && FateOf(records, batch[0], load) != Throws
    ensures var after := BatchRun(tk, records, batch, load).0;
      if FateOf(records, batch[0], load) == Indexed then Covers(after, batch[0]) else SameRecord(after, records, batch[0].key)
  {
    hide FateOf, Turn, Covers, SameRecord;
    var next := Turn(tk, records, batch[0], load);
    LaterFates(tk, records, batch, load);
    TurnCovers(tk, records, batch[0], load);
    BatchTouches(tk, next, batch[1..], load, batch[0].key);
    var after := BatchRun(tk, next, batch[1..], load).0;
    SameRecordSameFate(after, next, batch[0], load);
  }

  lemma SameRecordSameFate(a: Records, b: Records, t: Target, load: Loader)
    requires SameRecord(a, b, t.key)
    ensures FateOf(a, t, load) == FateOf(b, t, load) && (Covers(a, t) <==> Covers(b, t))
  {
    hide BlocksValid;
  }

  lemma {:induction false} PendingAppend(records: Records, a: seq<Target>, b: seq<Target>)
    ensures PendingTargets(records, a + b) == PendingTargets(records, a) + PendingTargets(records, b)
  {
    hide Covers;
    if a == [] {
      assert a + b == b;
    } else {
      assert (a + b)[1..] == a[1..] + b;
      PendingAppend(records, a[1..], b);
    }
  }

  lemma {:induction false} PendingOfPending(before: Records, after: Records, targets: seq<Target>)
    requires forall t :: t in targets && Covers(before, t) ==> Covers(after, t)
    ensures PendingTargets(after, targets) == PendingTargets(after, PendingTargets(before, targets))
  {
    hide Covers;
    if targets != [] {
      PendingOfPending(before, after, targets[1..]);
      if !Covers(before, targets[0]) {
        var pending := PendingTargets(before, targets);
        assert pending[0] == targets[0] && pending[1..] == PendingTargets(before, targets[1..]);
        assert PendingTargets(after, pending) == (if Covers(after, pending[0]) then [] else [pending[0]]) + PendingTargets(after, pending[1..]);
      } else {
        assert PendingTargets(before, targets) == PendingTargets(before, targets[1..]);
        assert PendingTargets(after, targets) == PendingTargets(after, targets[1..]);
      }
    }
  }

  lemma {:induction false} PendingIsStuck(records: Records, s: seq<Target>, fate: Fates)
    requires forall t :: t in s ==> (Covers(records, t) <==> fate(t) != Passed)
    ensures PendingTargets(records, s) == Stuck(s, fate)
  {
    hide Covers;
    if s != [] {
      PendingIsStuck(records, s[1..], fate);
    }
  }

  lemma {:induction false} AllPending(records: Records, s: seq<Target>)
    requires forall t :: t in s ==> !Covers(records, t)
    ensures PendingTargets(records, s) == s
  {
    hide Covers;
    if s != [] {
      AllPending(records, s[1..]);
    }
  }

  lemma CoveredStays(tk: Tokenizer, records: Records, targets: seq<Target>, limit: nat, load: Loader, t: Target)
    requires DistinctKeys(targets) && t in targets && Covers(records, t)
    ensures Covers(BatchRun(tk, records, Batch(records, targets, limit), load).0, t)
  {
    hide FateOf, PendingTargets, Covers, BatchRun;
    var batch := Batch(records, targets, limit);
    forall b | b in batch ensures b.key != t.key {
      assert b in PendingTargets(records, targets);
      var i :| 0 <= i < |targets| && targets[i] == b;
      var j :| 0 <= j < |targets| && targets[j] == t;
    }
    BatchTouches(tk, records, batch, load, t.key);
    SameRecordSameFate(BatchRun(tk, records, batch, load).0, records, t, load);
  }

  /** A pending target is covered by a call exactly when the call reaches it and it is indexed; else its record is as before. */
  lemma PendingTurn(tk: Tokenizer, records: Records, targets: seq<Target>, limit: nat, load: Loader, i: nat)
    requires DistinctKeys(targets) && i < |PendingTargets(records, targets)|
    ensures var pending, after := PendingTargets(records, targets), BatchRun(tk, records, Batch(records, targets, limit), load).0;
      if i < Reached(pending, limit, FatesIn(records, load)) && FateOf(records, pending[i], load) == Indexed then Covers(after, pending[i])
      else FateOf(after, pending[i], load) == FateOf(records, pending[i], load) && !Covers(after, pending[i])
  {
    hide FateOf, PendingTargets, Covers, BatchRun, DistinctKeys, SameRecord;
    var pending, batch := PendingTargets(records, targets), Batch(records, targets, limit);
    var after := BatchRun(tk, records, batch, load).0;
    PendingDistinct(records, targets);
    PrefixDistinct(pending, |batch|);
    assert pending[i] in pending;
    if i < |batch| {
      BatchAt(tk, records, batch, load, i);
    } else {
      forall t | t in batch ensures t.key != pending[i].key {
        var j :| 0 <= j < |batch| && batch[j] == t;
        PairDistinct(pending, j, i);
      }
      BatchTouches(tk, records, batch, load, pending[i].key);
    }
    if SameRecord(after, records, pending[i].key) {
      SameRecordSameFate(after, records, pending[i], load);
    }
  }

  lemma PairDistinct(s: seq<Target>, i: nat, j: nat)
    requires DistinctKeys(s) && i < j < |s|
    ensures s[i].key != s[j].key
  {
  }

  lemma PrefixDistinct(s: seq<Target>, n: nat)
    requires DistinctKeys(s) && n <= |s|
    ensures DistinctKeys(s[..n])
  {
  }

  /** One call moves the pending list exactly as the queue moves, and what is still pending has the fate it had. */
  lemma CallMovesQueue(tk: Tokenizer, records: Records, targets: seq<Target>, limit: nat, load: Loader)
    requires DistinctKeys(targets)
    ensures var pending, after := PendingTargets(records, targets), BatchRun(tk, records, Batch(records, targets, limit), load).0;
      && PendingTargets(after, targets) == NextPending(pending, limit, FatesIn(records, load))
      && (forall t :: t in PendingTargets(after, targets) ==> FateOf(after, t, load) == FateOf(records, t, load))
  {
    hide Covers, FateOf, BatchRun, Batch, Stuck, Reached, DistinctKeys, SameRecord, PendingTargets;
    var fate, pending := FatesIn(records, load), PendingTargets(records, targets);
    var after, n := BatchRun(tk, records, Batch(records, targets, limit), load).0, Reached(pending, limit, fate);
    NoThrowReached(pending, limit, fate);
    forall i | 0 <= i < |pending|
      ensures if i < n && fate(pending[i]) == Indexed then Covers(after, pending[i])
              else FateOf(after, pending[i], load) == fate(pending[i]) && !Covers(after, pending[i])
    {
      PendingTurn(tk, records, targets, limit, load, i);
    }
    forall t | t in targets && Covers(records, t) ensures Covers(after, t) {
      CoveredStays(tk, records, targets, limit, load, t);
    }
    PendingOfPending(records, after, targets);
    PendingAppend(after, pending[..n], pending[n..]);
    assert pending == pending[..n] + pending[n..];
    forall t | t in pending[..n] ensures Covers(after, t) <==> fate(t) != Passed {
      var i :| 0 <= i < n && pending[i] == t;
    }
    PendingIsStuck(after, pending[..n], fate);
    forall t | t in pending[n..] ensures !Covers(after, t) {
      var i :| n <= i < |pending| && pending[i] == t;
    }
    AllPending(after, pending[n..]);
    StillPendingFates(records, after, targets, pending, load);
  }

  lemma StillPendingFates(records: Records, after: Records, targets: seq<Target>, pending: seq<Target>, load: Loader)
    requires pending == PendingTargets(records, targets)
    requires forall t :: t in targets && Covers(records, t) ==> Covers(after, t)
    requires forall i :: 0 <= i < |pending| ==> Covers(after, pending[i]) || FateOf(after, pending[i], load) == FateOf(records, pending[i], load)
    ensures forall t :: t in PendingTargets(after, targets) ==> FateOf(after, t, load) == FateOf(records, t, load)
  {
    hide Covers, FateOf;
    forall t | t in PendingTargets(after, targets) ensures FateOf(after, t, load) == FateOf(records, t, load) {
      assert t in pending;
      var i :| 0 <= i < |pending| && pending[i] == t;
    }
  }

  // ----- many calls -----

  /** The store after a number of calls for the same targets; a call that throws keeps what it stored. */
  function Calls(tk: Tokenizer, records: Records, targets: seq<Target>, limit: nat, load: Loader, calls: nat): Records
    decreases calls
  {
    if calls == 0 then records
    else Calls(tk, BatchRun(tk, records, Batch(records, targets, limit), load).0, targets, limit, load, calls - 1)
  }

  lemma {:induction false} CallsMoveQueue(tk: Tokenizer, records: Records, targets: seq<Target>, limit: nat, load: Loader, calls: nat)
    requires DistinctKeys(targets)
    ensures PendingTargets(Calls(tk, records, targets, limit, load, calls), targets)
      == PendingAfter(PendingTargets(records, targets), limit, FatesIn(records, load), calls)
    decreases calls
  {
    hide DistinctKeys, PendingTargets, NextPending, FateOf, BatchRun, Batch;
    if calls > 0 {
      var after := BatchRun(tk, records, Batch(records, targets, limit), load).0;
      CallMovesQueue(tk, records, targets, limit, load);
      CallsMoveQueue(tk, after, targets, limit, load, calls - 1);
      PendingDistinct(after, targets);
      SameFatesSameQueue(PendingTargets(after, targets), limit, FatesIn(after, load), FatesIn(records, load), calls - 1);
    }
  }

  /**
   A pending section is ever indexed if and only if its own load can be applied, no section before
   it throws, and fewer sections than the batch limit before it are stuck behind a newer record
   that cannot be opened.
   */
  lemma IndexedEventuallyIff(tk: Tokenizer, records: Records, targets: seq<Target>, limit: BatchLimit, load: Loader, i: nat)
    requires DistinctKeys(targets) && i < |PendingTargets(records, targets)|
    ensures (exists calls: nat :: Covers(Calls(tk, records, targets, limit, load, calls), PendingTargets(records, targets)[i]))
      <==> Reachable(PendingTargets(records, targets), limit, FatesIn(records, load), i)
  {
    hide DistinctKeys, PendingTargets, NextPending, FateOf, Covers, Reachable, Calls, PendingAfter;
    var pending, fate := PendingTargets(records, targets), FatesIn(records, load);
    var t := pending[i];
    assert t in pending;
    PendingDistinct(records, targets);
    forall calls: nat
      ensures Covers(Calls(tk, records, targets, limit, load, calls), t) <==> t !in PendingAfter(pending, limit, fate, calls)
    {
      CallsMoveQueue(tk, records, targets, limit, load, calls);
    }
    if Reachable(pending, limit, fate, i) {
      var calls := IsReached(pending, limit, fate, i);
      assert Covers(Calls(tk, records, targets, limit, load, calls), t);
    } else {
      forall calls: nat ensures t in PendingAfter(pending, limit, fate, calls) {
        StaysPending(pending, limit, fate, i, calls);
      }
    }
  }

  predicate CompleteAfter(tk: Tokenizer, records: Records, targets: seq<Target>, limit: nat, load: Loader, calls: nat) {
    CoverageFor(Calls(tk, records, targets, limit, load, calls), targets).complete
  }

  lemma CompleteIsEmptyQueue(tk: Tokenizer, records: Records, targets: seq<Target>, limit: nat, load: Loader, calls: nat)
    requires DistinctKeys(targets)
    ensures CompleteAfter(tk, records, targets, limit, load, calls)
      <==> PendingAfter(PendingTargets(records, targets), limit, FatesIn(records, load), calls) == []
  {
    hide DistinctKeys, PendingTargets, FateOf, Covers, Calls, PendingAfter;
    CallsMoveQueue(tk, records, targets, limit, load, calls);
  }

  /** When every pending section can be indexed, calls complete the targets exactly when the batches add up to them. */
  lemma BatchesAddUp(tk: Tokenizer, records: Records, targets: seq<Target>, limit: BatchLimit, load: Loader, calls: nat)
    requires DistinctKeys(targets)
    requires forall t :: t in PendingTargets(records, targets) ==> FateOf(records, t, load) == Indexed
    ensures CompleteAfter(tk, records, targets, limit, load, calls) <==> calls * limit >= |PendingTargets(records, targets)|
  {
    hide DistinctKeys, PendingTargets, FateOf, CompleteAfter, PendingAfter;
    CompleteIsEmptyQueue(tk, records, targets, limit, load, calls);
    QueueDrains(PendingTargets(records, targets), limit, FatesIn(records, load), calls);
  }

  /** Repeated calls complete the targets if and only if every pending section's load can be applied. */
  lemma BatchesFinishIff(tk: Tokenizer, records: Records, targets: seq<Target>, limit: BatchLimit, load: Loader)
    requires DistinctKeys(targets)
    ensures (exists calls: nat :: CompleteAfter(tk, records, targets, limit, load, calls))
      <==> forall t :: t in PendingTargets(records, targets) ==> FateOf(records, t, load) == Indexed
  {
    hide DistinctKeys, PendingTargets, FateOf, CompleteAfter, PendingAfter, Reachable;
    var pending, fate := PendingTargets(records, targets), FatesIn(records, load);
    if forall t :: t in pending ==> FateOf(records, t, load) == Indexed {
      TimesAtLeast(|pending|, limit);
      BatchesAddUp(tk, records, targets, limit, load, |pending|);
    } else {
      var t :| t in pending && fate(t) != Indexed;
      var i :| 0 <= i < |pending| && pending[i] == t;
      NotIndexedNotReachable(pending, limit, fate, i);
      forall calls: nat ensures !CompleteAfter(tk, records, targets, limit, load, calls) {
        CompleteIsEmptyQueue(tk, records, targets, limit, load, calls);
        StaysPending(pending, limit, fate, i, calls);
      }
    }
  }

  lemma NotIndexedNotReachable(pending: seq<Target>, limit: nat, fate: Fates, i: nat)
    requires i < |pending| && fate(pending[i]) != Indexed
    ensures !Reachable(pending, limit, fate, i)
  {
  }

  lemma {:induction false} TimesAtLeast(n: nat, limit: nat)
    requires limit > 0
    ensures n * limit >= n
  {
    if n > 0 {
      TimesAtLeast(n - 1, limit);
      assert n * limit == (n - 1) * limit + limit;
    }
  }

  /** With readable or missing records and sound loads, every pending section's load can be applied. */
  lemma ReadableIsIndexed(records: Records, t: Target, load: Loader)
    requires !Covers(records, t) && (t.key in records ==> Readable(records, t.key))
    requires load(t).Some? && LoadMatches(t, load(t).value) && BlocksValid(load(t).value.blocks)
    ensures FateOf(records, t, load) == Indexed
  {
    hide BlocksValid;
  }

  /** A newer record that cannot be opened, first in a batch of one, keeps the next section from ever being indexed. */
  lemma UnreadableRecordStarvesTheNext(tk: Tokenizer, calls: nat)
    ensures var first, second := SectionKey("a", "root", 1), SectionKey("b", "root", 1);
      var targets := [Target(first, 1), Target(second, 1)];
      var load: Loader := (t: Target) => Some(SectionUpdate(t.key, t.serverSequence, []));
      var after := Calls(tk, map[first := Record(2, None)], targets, 1, load, calls);
      AllValid(targets) && !Covers(after, targets[0]) && !Covers(after, targets[1])
  {
    var first, second := SectionKey("a", "root", 1), SectionKey("b", "root", 1);
    var targets := [Target(first, 1), Target(second, 1)];
    var load: Loader := (t: Target) => Some(SectionUpdate(t.key, t.serverSequence, []));
    var records: Records := map[first := Record(2, None)];
    var fate := FatesIn(records, load);
    assert first != second by { assert "a"[0] != "b"[0]; }
    assert DistinctKeys(targets);
    AllPending(records, targets);
    assert fate(targets[0]) == Passed;
    assert targets[..1] == [targets[0]] && Stuck([targets[0]], fate) == [targets[0]];
    CallsMoveQueue(tk, records, targets, 1, load, calls);
    NotIndexedNotReachable(targets, 1, fate, 0);
    StaysPending(targets, 1, fate, 0, calls);
    StaysPending(targets, 1, fate, 1, calls);
  }

  // ----- records stay readable -----

  /** No call makes a record unreadable or takes it back to an earlier sequence. */
  lemma {:induction false} CallsKeepRecords(tk: Tokenizer, records: Records, targets: seq<Target>, limit: nat, load: Loader, calls: nat, key: SectionKey)
    ensures var after := Calls(tk, records, targets, limit, load, calls);
      && (key in records ==> key in after && after[key].indexedSequence >= records[key].indexedSequence)
      && (Readable(records, key) ==> Readable(after, key))
    decreases calls
  {
    hide BatchRun, Batch;
    if calls > 0 {
      BatchKeepsRecords(tk, records, Batch(records, targets, limit), load, key);
      CallsKeepRecords(tk, BatchRun(tk, records, Batch(records, targets, limit), load).0, targets, limit, load, calls - 1, key);
    }
  }

  lemma {:induction false} BatchKeepsRecords(tk: Tokenizer, records: Records, batch: seq<Target>, load: Loader, key: SectionKey)
    ensures var after := BatchRun(tk, records, batch, load).0;
      && (key in records ==> key in after && after[key].indexedSequence >= records[key].indexedSequence)
      && (Readable(records, key) ==> Readable(after, key))
    decreases |batch|
  {
    hide BlocksValid, Rebuilt, ById;
    if batch != [] && FateOf(records, batch[0], load) != Throws {
      BatchKeepsRecords(tk, Turn(tk, records, batch[0], load), batch[1..], load, key);
    }
  }
}
