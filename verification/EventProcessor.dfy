/**
 The client's event processor: batches arrive, are applied, reloaded and acknowledged one at a
 time across awaits that may fail, with one retry timer. One step per turn of the event loop.
 */
module EventProcessor {
  import opened Basics

  type Events = seq<nat>

  datatype Batch = Batch(events: Events, applied: bool, reloaded: bool)

  /** Where the running flush is suspended. */
  datatype Phase = Idle | Reloading | Acknowledging

  /** The logs record what the callbacks were called with and completed. */
  datatype State = State(
    pending: seq<Batch>,
    phase: Phase,
    retryScheduled: bool,
    active: bool,
    applied: seq<Events>,
    reloaded: seq<Events>,
    acknowledged: seq<nat>)

  function MaxOf(events: Events): (m: nat)
    requires events != []
    ensures m in events && forall c :: c in events ==> c <= m
  {
    if |events| == 1 then events[0]
    else
      var init, last := events[..|events| - 1], events[|events| - 1];
      assert events == init + [last];
      Max(MaxOf(init), last) as nat
  }

  // ----- specification -----

  /** catch and finally after a failure: arm the one retry timer while active. */
  function Failed(s: State): State { s.(phase := Idle, retryScheduled := s.retryScheduled || s.active) }

  function SetHead(s: State, batch: Batch): State
    requires s.pending != []
  {
    s.(pending := [batch] + s.pending[1..])
  }

  /** flushPendingBatches up to its first await; `applies` says whether applyEvents returns. */
  function Flushed(s: State, applies: bool): State {
    if !s.active || !s.phase.Idle? || s.pending == [] then s
    else
      var head := s.pending[0];
      if !head.applied && !applies then Failed(s)
      else
        var t := if head.applied then s
                 else SetHead(s, head.(applied := true)).(applied := s.applied + [head.events]);
        t.(phase := if head.reloaded then Acknowledging else Reloading)
  }

  function Pushed(s: State, events: Events, applies: bool): State {
    if events == [] then s else Flushed(s.(pending := s.pending + [Batch(events, false, false)]), applies)
  }

  function AfterReload(s: State, ok: bool): State
    requires s.pending != []
  {
    if !ok then Failed(s)
    else SetHead(s, s.pending[0].(reloaded := true)).(
      reloaded := s.reloaded + [s.pending[0].events], phase := if s.active then Acknowledging else Idle)
  }

  function AfterAcknowledge(s: State, ok: bool, applies: bool): State
    requires s.pending != [] && s.pending[0].events != []
  {
    if !ok then Failed(s)
    else
      var t := s.(acknowledged := s.acknowledged + [MaxOf(s.pending[0].events)], pending := s.pending[1..], phase := Idle);
      if t.retryScheduled then t else Flushed(t, applies)
  }

  // ----- what each turn does, said on the fields -----

  /** The head batch alone may have changed, and only its flags. */
  predicate HeadMarked(before: State, after: State, applied: bool, reloaded: bool) {
    && before.pending != [] && |after.pending| == |before.pending|
    && after.pending[0].events == before.pending[0].events
    && after.pending[0].applied == applied && after.pending[0].reloaded == reloaded
    && after.pending[1..] == before.pending[1..]
  }

  /** Idle again, nothing else lost, and one retry armed unless the processor was switched off. */
  predicate GaveUp(before: State, after: State) {
    && after.phase == Idle && after.retryScheduled == (before.retryScheduled || before.active)
    && after.pending == before.pending && after.active == before.active && after.applied == before.applied
    && after.reloaded == before.reloaded && after.acknowledged == before.acknowledged
  }

  /** A flush runs only while active, idle and with something pending; it applies a batch once, and waits for what comes next. */
  predicate FlushAnswer(before: State, after: State, applies: bool) {
    if before.active && before.phase == Idle && before.pending != [] then
      var head := before.pending[0];
      if !head.applied && !applies then GaveUp(before, after)
      else
        && HeadMarked(before, after, true, head.reloaded)
        && after.phase == (if head.reloaded then Acknowledging else Reloading)
        && after.applied == (if head.applied then before.applied else before.applied + [head.events])
        && after.reloaded == before.reloaded && after.acknowledged == before.acknowledged
        && after.retryScheduled == before.retryScheduled && after.active == before.active
    else after == before
  }

  lemma FlushTerms(s: State, applies: bool)
    ensures FlushAnswer(s, Flushed(s, applies), applies)
  {
  }

  /** A failed reload gives up; one that succeeded is noted and followed by the acknowledgement, unless switched off meanwhile. */
  predicate ReloadAnswer(before: State, after: State, ok: bool) {
    if !ok then GaveUp(before, after)
    else
      && before.pending != [] && HeadMarked(before, after, before.pending[0].applied, true)
      && after.reloaded == before.reloaded + [before.pending[0].events]
      && after.phase == (if before.active then Acknowledging else Idle)
      && after.applied == before.applied && after.acknowledged == before.acknowledged
      && after.retryScheduled == before.retryScheduled && after.active == before.active
  }

  lemma ReloadTerms(s: State, ok: bool)
    requires s.pending != []
    ensures ReloadAnswer(s, AfterReload(s, ok), ok)
  {
  }

  /** The batch is gone and its greatest cursor acknowledged; the next one follows at once unless a retry is on its way. */
  predicate AcknowledgeAnswer(before: State, after: State, ok: bool, applies: bool) {
    if !ok then GaveUp(before, after)
    else
      && before.pending != [] && after.acknowledged != []
      && var shorter := before.(pending := before.pending[1..], acknowledged := after.acknowledged, phase := Idle);
      && after.acknowledged[..|after.acknowledged| - 1] == before.acknowledged
      && IsGreatest(after.acknowledged[|after.acknowledged| - 1], before.pending[0].events)
      && (if before.retryScheduled then after == shorter else FlushAnswer(shorter, after, applies))
  }

  predicate IsGreatest(m: nat, events: Events) { m in events && forall c :: c in events ==> c <= m }

  lemma AcknowledgeTerms(s: State, ok: bool, applies: bool)
    requires s.pending != [] && s.pending[0].events != []
    ensures AcknowledgeAnswer(s, AfterAcknowledge(s, ok, applies), ok, applies)
  {
    hide MaxOf, Flushed, FlushAnswer;
    if ok {
      var t := s.(acknowledged := s.acknowledged + [MaxOf(s.pending[0].events)], pending := s.pending[1..], phase := Idle);
      FlushTerms(t, applies);
      FlushKeepsAcknowledged(t, applies);
    }
  }

  lemma FlushKeepsAcknowledged(s: State, applies: bool)
    ensures Flushed(s, applies).acknowledged == s.acknowledged
  {
  }

  // ----- the processor -----

  class CollaborationEventProcessor {
    var pendingBatches: seq<Batch>
    var phase: Phase
    var retryScheduled: bool
    var active: bool
    var applied: seq<Events>
    var reloaded: seq<Events>
    var acknowledged: seq<nat>

    function Now(): State
      reads this
    {
      State(pendingBatches, phase, retryScheduled, active, applied, reloaded, acknowledged)
    }

    constructor ()
      ensures Now() == State([], Idle, false, true, [], [], [])
    {
      pendingBatches, phase, retryScheduled, active := [], Idle, false, true;
      applied, reloaded, acknowledged := [], [], [];
    }

    method FlushPendingBatches(applies: bool)
      modifies this
      ensures Now() == Flushed(old(Now()), applies)
      ensures FlushAnswer(old(Now()), Now(), applies)
    {
      FlushTerms(Now(), applies);
      if !active || !phase.Idle? || pendingBatches == [] {
        return;
      }
      var batch := pendingBatches[0];
      if !batch.applied {
        if !applies {
          Catch();
          return;
        }
        applied := applied + [batch.events];
        pendingBatches := [batch.(applied := true)] + pendingBatches[1..];
      }
      phase := if batch.reloaded then Acknowledging else Reloading;
    }

    method Catch()
      modifies this`retryScheduled, this`phase
      ensures Now() == Failed(old(Now()))
    {
      if !retryScheduled && active {
        retryScheduled := true;
      }
      phase := Idle;
    }

    method Push(events: Events, applies: bool)
      modifies this
      ensures Now() == Pushed(old(Now()), events, applies)
      ensures if events == [] then Now() == old(Now())
        else FlushAnswer(old(Now()).(pending := old(pendingBatches) + [Batch(events, false, false)]), Now(), applies)
    {
      if events == [] {
        return;
      }
      pendingBatches := pendingBatches + [Batch(events, false, false)];
      FlushPendingBatches(applies);
    }

    method ReloadSettles(ok: bool)
      requires phase.Reloading? && pendingBatches != []
      modifies this
      ensures Now() == AfterReload(old(Now()), ok)
      ensures ReloadAnswer(old(Now()), Now(), ok)
    {
      ReloadTerms(Now(), ok);
      if !ok {
        Catch();
        return;
      }
      var batch := pendingBatches[0];
      reloaded := reloaded + [batch.events];
      pendingBatches := [batch.(reloaded := true)] + pendingBatches[1..];
      phase := if active then Acknowledging else Idle;
    }

    method AcknowledgeSettles(ok: bool, applies: bool)
      requires phase.Acknowledging? && pendingBatches != [] && pendingBatches[0].events != []
      modifies this
      ensures Now() == AfterAcknowledge(old(Now()), ok, applies)
      ensures AcknowledgeAnswer(old(Now()), Now(), ok, applies)
    {
      hide AcknowledgeAnswer;
      AcknowledgeTerms(Now(), ok, applies);
      if !ok {
        Catch();
        return;
      }
      acknowledged := acknowledged + [MaxOf(pendingBatches[0].events)];
      pendingBatches := pendingBatches[1..];
      phase := Idle;
      if pendingBatches != [] && !retryScheduled {
        FlushPendingBatches(applies);
      }
    }

    method RetryFires(applies: bool)
      requires retryScheduled
      modifies this
      ensures Now() == Flushed(old(Now()).(retryScheduled := false), applies)
      ensures FlushAnswer(old(Now()).(retryScheduled := false), Now(), applies)
    {
      retryScheduled := false;
      FlushPendingBatches(applies);
    }

    method Deactivate()
      modifies this`active
      ensures Now() == old(Now()).(active := false)
    {
      active := false;
    }
  }

  // ----- runs -----

  datatype Step =
    | PushStep(events: Events, applies: bool)
    | ReloadStep(ok: bool)
    | AcknowledgeStep(ok: bool, applies: bool)
    | RetryStep(applies: bool)
    | DeactivateStep

  /** The state together with every batch that ever arrived. */
  datatype Run = Run(s: State, arrived: seq<Events>)

  ghost predicate Enabled(r: Run, step: Step) {
    match step
    case ReloadStep(_) => r.s.phase.Reloading?
    case AcknowledgeStep(_, _) => r.s.phase.Acknowledging?
    case RetryStep(_) => r.s.retryScheduled
    case _ => true
  }

  ghost function Next(r: Run, step: Step): Run
    requires Inv(r) && Enabled(r, step)
  {
    match step
    case PushStep(events, applies) => Run(Pushed(r.s, events, applies), if events == [] then r.arrived else r.arrived + [events])
    case ReloadStep(ok) => r.(s := AfterReload(r.s, ok))
    case AcknowledgeStep(ok, applies) => r.(s := AfterAcknowledge(r.s, ok, applies))
    case RetryStep(applies) => r.(s := Flushed(r.s.(retryScheduled := false), applies))
    case DeactivateStep => r.(s := r.s.(active := false))
  }

  const START := Run(State([], Idle, false, true, [], [], []), [])

  // ----- the invariant -----

  function Count(flag: bool): nat { if flag then 1 else 0 }

  function HeadApplied(s: State): bool { s.pending != [] && s.pending[0].applied }

  function HeadReloaded(s: State): bool { s.pending != [] && s.pending[0].reloaded }

  /** What is pending is what arrived and was not acknowledged, untouched behind the head. */
  ghost predicate Queue(r: Run) {
    var done := |r.s.acknowledged|;
    && done + |r.s.pending| == |r.arrived|
    && (forall i :: 0 <= i < |r.s.pending| ==> r.s.pending[i].events == r.arrived[done + i])
    && (forall i :: 0 < i < |r.s.pending| ==> !r.s.pending[i].applied && !r.s.pending[i].reloaded)
    && (HeadReloaded(r.s) ==> HeadApplied(r.s))
    && (forall i :: 0 <= i < |r.arrived| ==> r.arrived[i] != [])
  }

  /** The callbacks completed on prefixes of what arrived, each no further than the one before it. */
  ghost predicate Logs(r: Run)
    requires Queue(r)
  {
    var done := |r.s.acknowledged|;
    && r.s.applied == r.arrived[..done + Count(HeadApplied(r.s))]
    && r.s.reloaded == r.arrived[..done + Count(HeadReloaded(r.s))]
    && (forall i :: 0 <= i < done ==> r.s.acknowledged[i] == MaxOf(r.arrived[i]))
  }

  ghost predicate Phases(s: State) {
    && (s.phase.Reloading? ==> HeadApplied(s) && !HeadReloaded(s))
    && (s.phase.Acknowledging? ==> HeadReloaded(s))
  }

  ghost predicate NotStuck(s: State) {
    s.active && s.pending != [] ==> !s.phase.Idle? || s.retryScheduled
  }

  ghost predicate Inv(r: Run) {
    Queue(r) && Logs(r) && Phases(r.s) && NotStuck(r.s)
  }

  /** All but NotStuck: what a flush starts from. */
  ghost predicate Sound(r: Run) { Queue(r) && Logs(r) && Phases(r.s) }

  lemma FlushKeeps(r: Run, applies: bool)
    requires Sound(r)
    ensures Sound(r.(s := Flushed(r.s, applies)))
    ensures NotStuck(Flushed(r.s, applies))
  {
    hide MaxOf;
    var next := r.(s := Flushed(r.s, applies));
    if r.s.active && r.s.phase.Idle? && r.s.pending != [] && !r.s.pending[0].applied && applies {
      assert r.arrived[..|r.s.acknowledged| + 1] == r.arrived[..|r.s.acknowledged|] + [r.arrived[|r.s.acknowledged|]];
    }
  }

  function Joined(r: Run, events: Events): Run {
    Run(r.s.(pending := r.s.pending + [Batch(events, false, false)]), r.arrived + [events])
  }

  lemma SameHead(r: Run, events: Events)
    ensures HeadApplied(Joined(r, events).s) == HeadApplied(r.s) && HeadReloaded(Joined(r, events).s) == HeadReloaded(r.s)
  {
  }

  lemma JoinedQueue(r: Run, events: Events)
    requires Queue(r) && events != []
    ensures Queue(Joined(r, events))
  {
    SameHead(r, events);
  }

  lemma PrefixStays(arrived: seq<Events>, events: Events, n: nat)
    requires n <= |arrived|
    ensures (arrived + [events])[..n] == arrived[..n]
  {
  }

  /** A new batch joins the queue untouched. */
  lemma PushIsSound(r: Run, events: Events)
    requires Sound(r) && events != []
    ensures Sound(Joined(r, events))
  {
    hide MaxOf;
    SameHead(r, events);
    JoinedQueue(r, events);
    PrefixStays(r.arrived, events, |r.s.acknowledged| + Count(HeadApplied(r.s)));
    PrefixStays(r.arrived, events, |r.s.acknowledged| + Count(HeadReloaded(r.s)));
  }

  lemma PushKeeps(r: Run, events: Events, applies: bool)
    requires Inv(r)
    ensures Inv(Next(r, PushStep(events, applies)))
  {
    hide Queue, Logs;
    if events != [] {
      PushIsSound(r, events);
      FlushKeeps(Joined(r, events), applies);
    }
  }

  lemma ReloadKeeps(r: Run, ok: bool)
    requires Inv(r) && r.s.phase.Reloading?
    ensures Inv(Next(r, ReloadStep(ok)))
  {
    hide MaxOf;
    if ok {
      assert r.arrived[..|r.s.acknowledged| + 1] == r.arrived[..|r.s.acknowledged|] + [r.arrived[|r.s.acknowledged|]];
    }
  }

  lemma AcknowledgeKeeps(r: Run, ok: bool, applies: bool)
    requires Inv(r) && r.s.phase.Acknowledging?
    ensures Inv(Next(r, AcknowledgeStep(ok, applies)))
  {
    hide MaxOf;
    if ok {
      var shifted := r.(s := r.s.(acknowledged := r.s.acknowledged + [MaxOf(r.s.pending[0].events)], pending := r.s.pending[1..], phase := Idle));
      assert Sound(shifted);
      FlushKeeps(shifted, applies);
    }
  }

  lemma StepKeepsInv(r: Run, step: Step)
    requires Inv(r) && Enabled(r, step)
    ensures Inv(Next(r, step))
    ensures r.arrived <= Next(r, step).arrived
  {
    hide Queue, Logs;
    match step
    case PushStep(events, applies) => PushKeeps(r, events, applies);
    case ReloadStep(ok) => ReloadKeeps(r, ok);
    case AcknowledgeStep(ok, applies) => AcknowledgeKeeps(r, ok, applies);
    case RetryStep(applies) =>
      RetryIsSound(r);
      FlushKeeps(r.(s := r.s.(retryScheduled := false)), applies);
    case DeactivateStep => DeactivateIsSound(r);
  }

  lemma RetryIsSound(r: Run)
    requires Sound(r)
    ensures Sound(r.(s := r.s.(retryScheduled := false)))
  {
  }

  lemma DeactivateIsSound(r: Run)
    requires Sound(r)
    ensures Sound(r.(s := r.s.(active := false)))
  {
  }

  ghost predicate EnabledRun(r: Run, steps: seq<Step>)
    requires Inv(r)
    decreases |steps|
  {
    steps == [] || (Enabled(r, steps[0]) && (StepKeepsInv(r, steps[0]); EnabledRun(Next(r, steps[0]), steps[1..])))
  }

  ghost function RunAll(r: Run, steps: seq<Step>): (last: Run)
    requires Inv(r) && EnabledRun(r, steps)
    ensures Inv(last) && r.arrived <= last.arrived
    decreases |steps|
  {
    if steps == [] then r
    else
      StepKeepsInv(r, steps[0]);
      RunAll(Next(r, steps[0]), steps[1..])
  }

  /**
   Under any pattern of failures, retries and arrivals: what was applied is a prefix of what
   arrived (each batch at most once, in order), what was reloaded a prefix of that, and each
   acknowledgement names the last cursor of the next batch, only after its application and reload.
   */
  lemma AppliedOnceInOrder(steps: seq<Step>)
    requires EnabledRun(START, steps)
    ensures var r := RunAll(START, steps);
      && r.s.applied <= r.arrived && r.s.reloaded <= r.s.applied
      && |r.s.acknowledged| <= |r.s.reloaded|
      && (forall i :: 0 <= i < |r.s.acknowledged| ==> r.s.reloaded[i] != [] && r.s.acknowledged[i] == MaxOf(r.s.reloaded[i]))
  {
    var r := RunAll(START, steps);
    assert Queue(r) && Logs(r);
  }

  /** While active, a waiting batch is being processed or a retry is on its way. */
  lemma NeverStuck(steps: seq<Step>)
    requires EnabledRun(START, steps)
    ensures var s := RunAll(START, steps).s;
      s.active && s.pending != [] ==> !s.phase.Idle? || s.retryScheduled
  {
    assert Inv(RunAll(START, steps));
  }

  /** How many more successful callbacks the queue needs. */
  function Work(s: State): nat { 2 * |s.pending| - Count(HeadReloaded(s)) }

  /** Every callback that succeeds while active brings the queue one closer to empty; no failure or retry sets it back. */
  lemma SuccessMakesProgress(r: Run, step: Step)
    requires Inv(r) && Enabled(r, step) && !step.PushStep?
    ensures (step.ReloadStep? || step.AcknowledgeStep?) && step.ok ==> Work(Next(r, step).s) < Work(r.s)
    ensures Work(Next(r, step).s) <= Work(r.s)
  {
    hide Logs, MaxOf;
  }
}
