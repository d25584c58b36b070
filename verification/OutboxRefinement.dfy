/**
 An uninterrupted flush of a fence, as the outbox's own methods perform it, is a run of the
 delivery machine: what is proved of every run holds of the code's loop.
 */
module OutboxRefinement {
  import opened Basics
  import opened SectionHistory
  import opened OutboxStore
  import opened Outbox
  import opened OutboxDelivery

  /** The machine steps of one turn of the flush loop. */
  function TurnSteps(record: OutboxRecord, acknowledgements: map<OutboxKey, nat>, now: nat, retryDelay: nat, carries: OutboxRecord -> bool): seq<Step> {
    if record.state.TerminalRejected? then []
    else if record.key in acknowledgements then
      [FlushAcknowledged(record), WriteAck(record.key, acknowledgements[record.key]), DropRecord(record.key)]
    else if !Due(record, now, retryDelay) then []
    else if carries(Resent(record, now)) then [MarkSending(record, now), Transmit(record)]
    else [MarkSending(record, now)]
  }

  /** The machine steps of a whole flush after the listing. */
  function FlushSteps(listed: seq<OutboxRecord>, fence: Fence, acknowledgements: map<OutboxKey, nat>, now: nat,
      retryDelay: nat,
                      carries: OutboxRecord -> bool): seq<Step> {
    if listed == [] then []
    else
      var record := listed[|listed| - 1];
      FlushSteps(listed[..|listed| - 1], fence, acknowledgements, now, retryDelay, carries)
      + (if FenceOf(record.key) == fence then TurnSteps(record, acknowledgements, now, retryDelay, carries) else [])
  }

  lemma {:induction false} RunAppends(w: World, a: seq<Step>, b: seq<Step>)
    requires EnabledRun(w, a) && EnabledRun(Run(w, a), b)
    ensures EnabledRun(w, a + b) && Run(w, a + b) == Run(Run(w, a), b)
    decreases |a|
  {
    hide Next;
    if a == [] {
      assert a + b == b;
    } else {
      RunAppends(Next(w, a[0]), a[1..], b);
      assert (a + b)[1..] == a[1..] + b;
    }
  }

  lemma RunOne(w: World, step: Step)
    requires Enabled(w, step)
    ensures EnabledRun(w, [step]) && Run(w, [step]) == Next(w, step)
  {
    hide Next;
    assert Run(Next(w, step), [step][1..]) == Next(w, step);
  }

  lemma RunTwo(w: World, first: Step, second: Step)
    requires Enabled(w, first) && Enabled(Next(w, first), second)
    ensures EnabledRun(w, [first, second]) && Run(w, [first, second]) == Next(Next(w, first), second)
  {
    hide Next;
    RunOne(w, first);
    RunOne(Next(w, first), second);
    RunAppends(w, [first], [second]);
    assert [first] + [second] == [first, second];
  }

  lemma RunThree(w: World, first: Step, second: Step, third: Step)
    requires Enabled(w, first) && Enabled(Next(w, first), second) && Enabled(Next(Next(w, first), second), third)
    ensures EnabledRun(w, [first, second, third]) && Run(w, [first, second, third]) == Next(Next(Next(w, first), second), third)
  {
    hide Next;
    RunTwo(w, first, second);
    RunOne(Next(Next(w, first), second), third);
    RunAppends(w, [first, second], [third]);
    assert [first, second] + [third] == [first, second, third];
  }

  /** Where the machine stands after handling these keys of a listing taken from `store`. */
  ghost predicate Mirrors(w: World, store: Store, listed: set<OutboxRecord>, handled: set<OutboxKey>, now: nat, retryDelay: nat) {
    && w.store.acknowledgements == store.acknowledgements
    && w.store.outbox == FlushedKeys(store, handled, now, retryDelay)
    && listed <= w.listed
  }

  function FrameIds(records: seq<OutboxRecord>): set<Id> {
    set i | 0 <= i < |records| :: records[i].key.updateId
  }

  /** One turn of the loop is enabled in the machine and leaves the same stores and frames. */
  lemma TurnIsARun(w: World, store: Store, listed: set<OutboxRecord>, handled: set<OutboxKey>, record: OutboxRecord,
      now: nat, retryDelay: nat,
                   carries: OutboxRecord -> bool)
    requires Mirrors(w, store, listed, handled, now, retryDelay)
    requires record in listed && record.key in store.outbox && store.outbox[record.key] == record && record.key !in handled
    ensures var steps := TurnSteps(record, store.acknowledgements, now, retryDelay, carries);
      && EnabledRun(w, steps)
      && Mirrors(Run(w, steps), store, listed, handled + {record.key}, now, retryDelay)
      && Run(w, steps).frames == w.frames + FrameIds(Dispatch(record, store.acknowledgements, now, retryDelay, carries))
      && Run(w, steps).h == w.h
  {
    hide EnabledRun;
    var key := record.key;
    assert FrameIds([]) == {};
    if record.state.TerminalRejected? {
      NothingRuns(w);
    } else if key in store.acknowledgements {
      AcknowledgedTurn(w, store, listed, handled, record, now, retryDelay);
    } else if !Due(record, now, retryDelay) {
      NothingRuns(w);
    } else if carries(Resent(record, now)) {
      DueTurn(w, store, listed, handled, record, now, retryDelay);
      OneFrame(Resent(record, now));
    } else {
      DueTurn(w, store, listed, handled, record, now, retryDelay);
    }
  }

  lemma DueTurn(w: World, store: Store, listed: set<OutboxRecord>, handled: set<OutboxKey>, record: OutboxRecord,
      now: nat, retryDelay: nat)
    requires Mirrors(w, store, listed, handled, now, retryDelay)
    requires record in listed && record.key in store.outbox && store.outbox[record.key] == record && record.key !in handled
    requires Due(record, now, retryDelay) && record.key !in store.acknowledgements
    ensures var steps := [MarkSending(record, now)];
      && EnabledRun(w, steps)
      && Mirrors(Run(w, steps), store, listed, handled + {record.key}, now, retryDelay)
      && Run(w, steps).frames == w.frames && Run(w, steps).h == w.h
    ensures var steps := [MarkSending(record, now), Transmit(record)];
      && EnabledRun(w, steps)
      && Mirrors(Run(w, steps), store, listed, handled + {record.key}, now, retryDelay)
      && Run(w, steps).frames == w.frames + {record.key.updateId} && Run(w, steps).h == w.h
  {
    hide EnabledRun;
    RunOne(w, MarkSending(record, now));
    RunTwo(w, MarkSending(record, now), Transmit(record));
  }

  lemma OneFrame(record: OutboxRecord)
    ensures FrameIds([record]) == {record.key.updateId}
  {
    assert [record][0] == record;
  }

  lemma NothingRuns(w: World)
    ensures EnabledRun(w, []) && Run(w, []) == w
  {
  }

  lemma AcknowledgedTurn(w: World, store: Store, listed: set<OutboxRecord>, handled: set<OutboxKey>,
      record: OutboxRecord, now: nat, retryDelay: nat)
    requires Mirrors(w, store, listed, handled, now, retryDelay)
    requires record in listed && record.key in store.outbox && store.outbox[record.key] == record && record.key !in handled
    requires !record.state.TerminalRejected? && record.key in store.acknowledgements
    ensures var steps := [FlushAcknowledged(record), WriteAck(record.key, store.acknowledgements[record.key]), DropRecord(record.key)];
      && EnabledRun(w, steps)
      && Mirrors(Run(w, steps), store, listed, handled + {record.key}, now, retryDelay)
      && Run(w, steps).frames == w.frames && Run(w, steps).h == w.h
  {
    hide EnabledRun;
    var sequence := store.acknowledgements[record.key];
    RunThree(w, FlushAcknowledged(record), WriteAck(record.key, sequence), DropRecord(record.key));
    assert store.acknowledgements[record.key := sequence] == store.acknowledgements;
  }

  /**
   The loop of flushFence over a listing, with nothing in between, is a run of the machine: it
   ends in the stores the loop leaves and puts on the wire what the loop sends.
   */
  lemma {:induction false} FlushIsARun(w: World, store: Store, all: seq<OutboxRecord>, n: nat, userId: Id,
      fence: Fence, now: nat, retryDelay: nat,
                                       carries: OutboxRecord -> bool)
    requires n <= |all| && Lists(all, store.outbox, userId)
    requires w.store == store && (set i | 0 <= i < |all| :: all[i]) <= w.listed
    ensures var steps := FlushSteps(all[..n], fence, store.acknowledgements, now, retryDelay, carries);
      && EnabledRun(w, steps)
      && Mirrors(Run(w, steps), store, set i | 0 <= i < |all| :: all[i], KeysOf(all[..n], fence), now, retryDelay)
      && Run(w, steps).frames == w.frames + FrameIds(Outgoing(all[..n], fence, store.acknowledgements, now, retryDelay, carries))
      && Run(w, steps).h == w.h
    decreases n
  {
    hide EnabledRun, Dispatch, Flushed, Lists;
    if n == 0 {
      NothingRuns(w);
      assert FrameIds(Outgoing(all[..0], fence, store.acknowledgements, now, retryDelay, carries)) == {};
      assert FlushedKeys(store, {}, now, retryDelay) == store.outbox;
    } else {
      var record := all[n - 1];
      assert all[..n][..n - 1] == all[..n - 1];
      FlushIsARun(w, store, all, n - 1, userId, fence, now, retryDelay, carries);
      if FenceOf(record.key) == fence {
        ExtendRun(w, store, all, n, userId, fence, now, retryDelay, carries);
      } else {
        var steps := FlushSteps(all[..n - 1], fence, store.acknowledgements, now, retryDelay, carries);
        assert steps + [] == steps;
        var outgoing := Outgoing(all[..n - 1], fence, store.acknowledgements, now, retryDelay, carries);
        assert outgoing + [] == outgoing;
      }
    }
  }

  lemma ExtendRun(w: World, store: Store, all: seq<OutboxRecord>, n: nat, userId: Id, fence: Fence, now: nat,
      retryDelay: nat, carries: OutboxRecord -> bool)
    requires 0 < n <= |all| && Lists(all, store.outbox, userId) && FenceOf(all[n - 1].key) == fence
    requires var steps := FlushSteps(all[..n - 1], fence, store.acknowledgements, now, retryDelay, carries);
      && EnabledRun(w, steps)
      && Mirrors(Run(w, steps), store, set i | 0 <= i < |all| :: all[i], KeysOf(all[..n - 1], fence), now, retryDelay)
      && Run(w, steps).frames == w.frames + FrameIds(Outgoing(all[..n - 1], fence, store.acknowledgements, now, retryDelay, carries))
      && Run(w, steps).h == w.h
    ensures var steps := FlushSteps(all[..n], fence, store.acknowledgements, now, retryDelay, carries);
      && EnabledRun(w, steps)
      && Mirrors(Run(w, steps), store, set i | 0 <= i < |all| :: all[i], KeysOf(all[..n], fence), now, retryDelay)
      && Run(w, steps).frames == w.frames + FrameIds(Outgoing(all[..n], fence, store.acknowledgements, now, retryDelay, carries))
      && Run(w, steps).h == w.h
  {
    hide EnabledRun, Run, Mirrors, Dispatch, TurnSteps, Lists;
    var record := all[n - 1];
    var listed := set i | 0 <= i < |all| :: all[i];
    var steps := FlushSteps(all[..n - 1], fence, store.acknowledgements, now, retryDelay, carries);
    assert all[..n][..n - 1] == all[..n - 1];
    FreshKey(all, n - 1, fence, store.outbox, userId);
    TurnIsARun(Run(w, steps), store, listed, KeysOf(all[..n - 1], fence), record, now, retryDelay, carries);
    RunAppends(w, steps, TurnSteps(record, store.acknowledgements, now, retryDelay, carries));
    FramesAppend(Outgoing(all[..n - 1], fence, store.acknowledgements, now, retryDelay, carries), Dispatch(record, store.acknowledgements, now, retryDelay, carries));
  }

  lemma FramesAppend(a: seq<OutboxRecord>, b: seq<OutboxRecord>)
    ensures FrameIds(a + b) == FrameIds(a) + FrameIds(b)
  {
    forall id | id in FrameIds(a) + FrameIds(b) ensures id in FrameIds(a + b) {
      if id in FrameIds(a) {
        var i :| 0 <= i < |a| && a[i].key.updateId == id;
        assert (a + b)[i] == a[i];
      } else {
        var i :| 0 <= i < |b| && b[i].key.updateId == id;
        assert (a + b)[|a| + i] == b[i];
      }
    }
  }
}
