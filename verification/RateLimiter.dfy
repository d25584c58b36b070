/** The fixed-window rate limiter in front of the authentication routes. */
module RateLimiter {
  import opened Basics
  import opened Totals

  const MAX_KEYS: nat := 10_000

  datatype Attempt = Attempt(count: nat, resetAt: nat)

  datatype Limiter = Limiter(attempts: map<Id, Attempt>, nextCleanupAt: nat)

  datatype Options = Options(maxAttempts: nat, windowMs: nat)

  // ----- specification -----

  function Live(attempts: map<Id, Attempt>, now: nat): map<Id, Attempt> {
    map k | k in attempts && attempts[k].resetAt > now :: attempts[k]
  }

  predicate CleanupDue(s: Limiter, now: nat) { now >= s.nextCleanupAt || |s.attempts| >= MAX_KEYS }

  function Cleaned(options: Options, s: Limiter, now: nat): Limiter {
    if CleanupDue(s, now) then Limiter(Live(s.attempts, now), now + options.windowMs) else s
  }

  /** What the request's own entry and the table's size decide. */
  predicate Passes(options: Options, attempts: map<Id, Attempt>, key: Id, now: nat) {
    if key !in attempts then |attempts| < MAX_KEYS
    else attempts[key].resetAt <= now || attempts[key].count < options.maxAttempts
  }

  function Counted(options: Options, attempts: map<Id, Attempt>, key: Id, now: nat): map<Id, Attempt> {
    if key !in attempts || attempts[key].resetAt <= now then attempts[key := Attempt(1, now + options.windowMs)]
    else attempts[key := Attempt(attempts[key].count + 1, attempts[key].resetAt)]
  }

  function Handled(options: Options, s: Limiter, key: Id, now: nat): (Limiter, bool) {
    var t := Cleaned(options, s, now);
    if Passes(options, t.attempts, key, now) then (t.(attempts := Counted(options, t.attempts, key, now)), true) else (t, false)
  }

  // ----- what a request does, said on the entries -----

  /** Entries past their window go when a sweep is due or the table full; nothing else does. */
  ghost predicate SweptTo(before: Limiter, kept: map<Id, Attempt>, now: nat) {
    var sweeps := before.nextCleanupAt <= now || 10_000 <= |before.attempts|;
    && (forall k :: k in kept <==> k in before.attempts && (sweeps ==> now < before.attempts[k].resetAt))
    && (forall k :: k in kept ==> kept[k] == before.attempts[k])
  }

  /** A new key needs a free place, a known one a window that is over or not used up; the window starts anew or goes on. */
  ghost predicate HandleAnswer(options: Options, before: Limiter, key: Id, now: nat, after: Limiter, passes: bool) {
    exists kept: map<Id, Attempt> ::
      && SweptTo(before, kept, now)
      && (passes <==> if key in kept then kept[key].resetAt <= now || kept[key].count < options.maxAttempts else |kept| < 10_000)
      && (!passes ==> after.attempts == kept)
      && (passes ==>
            && key in after.attempts && after.attempts - {key} == kept - {key}
            && (if key in kept && now < kept[key].resetAt
                then after.attempts[key].count == kept[key].count + 1 && after.attempts[key].resetAt == kept[key].resetAt
                else after.attempts[key].count == 1 && after.attempts[key].resetAt == now + options.windowMs))
      && after.nextCleanupAt == (if before.nextCleanupAt <= now || 10_000 <= |before.attempts| then now + options.windowMs else before.nextCleanupAt)
  }

  lemma HandleTerms(options: Options, s: Limiter, key: Id, now: nat)
    ensures HandleAnswer(options, s, key, now, Handled(options, s, key, now).0, Handled(options, s, key, now).1)
  {
    hide SweptTo, Cleaned, Live;
    SweepTerms(options, s, now);
    var kept := Cleaned(options, s, now).attempts;
    assert SweptTo(s, kept, now);
  }

  lemma SweepTerms(options: Options, s: Limiter, now: nat)
    ensures SweptTo(s, Cleaned(options, s, now).attempts, now)
    ensures Cleaned(options, s, now).nextCleanupAt
      == if s.nextCleanupAt <= now || 10_000 <= |s.attempts| then now + options.windowMs else s.nextCleanupAt
  {
  }

  // ----- the handler -----

  class RequestLimiter {
    var attempts: map<Id, Attempt>
    var nextCleanupAt: nat
    const options: Options

    function Now(): Limiter
      reads this
    {
      Limiter(attempts, nextCleanupAt)
    }

    constructor (options: Options, now: nat)
      ensures this.options == options && Now() == Limiter(map[], now + options.windowMs)
    {
      this.options := options;
      attempts, nextCleanupAt := map[], now + options.windowMs;
    }

    /** A refusal by count also tells the first whole second at which the window is over. */
    method Handle(key: Id, now: nat) returns (passes: bool, retryAfter: Option<nat>)
      modifies this
      ensures (Now(), passes) == Handled(options, old(Now()), key, now)
      ensures HandleAnswer(options, old(Now()), key, now, Now(), passes)
      ensures retryAfter.Some? <==> !passes && key in attempts
      ensures retryAfter.Some? ==>
        && now + 1000 * retryAfter.value >= attempts[key].resetAt
        && now + 1000 * (retryAfter.value - 1) < attempts[key].resetAt
    {
      hide HandleAnswer;
      HandleTerms(options, Now(), key, now);
      if now >= nextCleanupAt || |attempts| >= MAX_KEYS {
        RemoveExpired(now);
        nextCleanupAt := now + options.windowMs;
      }
      if key !in attempts && |attempts| >= MAX_KEYS {
        return false, None;
      }
      if key !in attempts || attempts[key].resetAt <= now {
        attempts := attempts[key := Attempt(1, now + options.windowMs)];
        return true, None;
      }
      var current := attempts[key];
      if current.count >= options.maxAttempts {
        return false, Some((current.resetAt - now + 999) / 1000);
      }
      attempts := attempts[key := current.(count := current.count + 1)];
      return true, None;
    }

    /** The sweep over the stored keys. */
    method RemoveExpired(now: nat)
      modifies this`attempts
      ensures attempts == Live(old(attempts), now)
    {
      var rest := attempts.Keys;
      ghost var before := attempts;
      while rest != {}
        invariant rest <= before.Keys
        invariant attempts == map k | k in before && (k in rest || before[k].resetAt > now) :: before[k]
        decreases |rest|
      {
        var storedKey :| storedKey in rest;
        rest := rest - {storedKey};
        if attempts[storedKey].resetAt <= now {
          attempts := attempts - {storedKey};
        }
      }
    }
  }

  // ----- cleanup is invisible except for capacity -----

  /**
   Removing expired entries never turns a pass into a refusal, and turns a refusal into a pass
   exactly when the key was new, the table full, and an expired entry made room.
   */
  lemma CleanupOnlyFreesCapacity(options: Options, attempts: map<Id, Attempt>, key: Id, now: nat)
    requires |attempts| <= MAX_KEYS
    ensures Passes(options, attempts, key, now) ==> Passes(options, Live(attempts, now), key, now)
    ensures Passes(options, Live(attempts, now), key, now) && !Passes(options, attempts, key, now)
      <==> key !in attempts && |attempts| == MAX_KEYS && |Live(attempts, now)| < MAX_KEYS
    ensures Counted(options, Live(attempts, now), key, now)[key] == Counted(options, attempts, key, now)[key]
  {
    var live := Live(attempts, now);
    SubsetSize(live.Keys, attempts.Keys);
    if key in attempts && key !in live {
      SubsetSize(live.Keys, attempts.Keys - {key});
    }
  }

  // ----- whole runs -----

  datatype Request = Request(key: Id, now: nat)

  /** A request let through, and the start of the window it was counted in. */
  datatype Pass = Pass(time: nat, start: nat)

  datatype Run = Run(s: Limiter, clock: nat, passes: map<Id, seq<Pass>>)

  function PassesOf(passes: map<Id, seq<Pass>>, key: Id): seq<Pass> { if key in passes then passes[key] else [] }

  /** The window a passing request falls into. */
  function WindowStart(options: Options, attempts: map<Id, Attempt>, key: Id, now: nat): int {
    if key !in attempts || attempts[key].resetAt <= now then now else attempts[key].resetAt - options.windowMs
  }

  function Next(options: Options, r: Run, request: Request): Run {
    var t := Cleaned(options, r.s, request.now);
    var (s, passed) := Handled(options, r.s, request.key, request.now);
    Run(s, request.now,
        if passed then r.passes[request.key := PassesOf(r.passes, request.key)
                                + [Pass(request.now, Max(0, WindowStart(options, t.attempts, request.key, request.now)))]]
        else r.passes)
  }

  predicate Monotone(clock: nat, requests: seq<Request>)
    decreases |requests|
  {
    requests == [] || (clock <= requests[0].now && Monotone(requests[0].now, requests[1..]))
  }

  function RunAll(options: Options, r: Run, requests: seq<Request>): Run
    decreases |requests|
  {
    if requests == [] then r else RunAll(options, Next(options, r, requests[0]), requests[1..])
  }

  function PerWindow(options: Options): nat { Max(1, options.maxAttempts) }

  ghost predicate InWindow(options: Options, p: seq<Pass>) {
    forall i :: 0 <= i < |p| ==> p[i].start <= p[i].time < p[i].start + options.windowMs
  }

  ghost predicate Ordered(p: seq<Pass>) {
    forall i, j :: 0 <= i < j < |p| ==> p[i].time <= p[j].time
  }

  ghost predicate Disjoint(options: Options, p: seq<Pass>) {
    forall i, j :: 0 <= i < j < |p| ==> p[i].start == p[j].start || p[i].start + options.windowMs <= p[j].start
  }

  ghost predicate Limited(options: Options, p: seq<Pass>) {
    forall i, j :: 0 <= i && j == i + PerWindow(options) < |p| ==> p[i].start != p[j].start
  }

  /** A window starts with its first pass. */
  ghost predicate Opened(p: seq<Pass>) {
    forall i :: 0 <= i < |p| && (i == 0 || p[i - 1].start != p[i].start) ==> p[i].time == p[i].start
  }

  /** Windows of one key are disjoint and in order, start with a pass, and none holds more than its share. */
  ghost predicate Windows(options: Options, p: seq<Pass>) {
    InWindow(options, p) && Ordered(p) && Disjoint(options, p) && Limited(options, p) && Opened(p)
  }

  /** The stored entry describes the key's last window: its end and how many it let through. */
  ghost predicate Describes(options: Options, p: seq<Pass>, attempt: Attempt) {
    && 1 <= attempt.count <= |p| && attempt.count <= PerWindow(options)
    && attempt.resetAt == p[|p| - 1].start + options.windowMs
    && (forall i :: 0 <= i < |p| ==> (p[i].start == p[|p| - 1].start <==> |p| - attempt.count <= i))
  }

  ghost predicate KeyInv(options: Options, r: Run, key: Id) {
    var p := PassesOf(r.passes, key);
    && Windows(options, p)
    && (p != [] ==> p[|p| - 1].time <= r.clock)
    && (key in r.s.attempts ==> Describes(options, p, r.s.attempts[key]))
    && (key !in r.s.attempts && p != [] ==> p[|p| - 1].start + options.windowMs <= r.clock)
  }

  ghost predicate Inv(options: Options, r: Run) {
    |r.s.attempts| <= MAX_KEYS && forall key :: KeyInv(options, r, key)
  }

  /** Sweeping and the passing of time keep the account. */
  lemma CleanKeeps(options: Options, r: Run, now: nat, key: Id)
    requires KeyInv(options, r, key) && r.clock <= now
    ensures KeyInv(options, Run(Cleaned(options, r.s, now), now, r.passes), key)
  {
    hide Windows;
    var p := PassesOf(r.passes, key);
    if p != [] && key in r.s.attempts {
      assert r.s.attempts[key].resetAt == p[|p| - 1].start + options.windowMs;
    }
  }

  lemma PassKeeps(options: Options, r: Run, key: Id)
    requires 0 < options.windowMs && KeyInv(options, r, key) && Passes(options, r.s.attempts, key, r.clock)
    ensures var start := WindowStart(options, r.s.attempts, key, r.clock);
      && 0 <= start
      && KeyInv(options, Run(r.s.(attempts := Counted(options, r.s.attempts, key, r.clock)), r.clock,
                             r.passes[key := PassesOf(r.passes, key) + [Pass(r.clock, start)]]), key)
  {
    hide Windows;
    var p := PassesOf(r.passes, key);
    var start := WindowStart(options, r.s.attempts, key, r.clock);
    if key in r.s.attempts && r.s.attempts[key].resetAt > r.clock {
      assert start == p[|p| - 1].start;
      SameWindow(options, p, r.s.attempts[key], r.clock);
    } else {
      NewWindow(options, p, r.clock);
    }
  }

  /** The last pass comes first in both orders. */
  ghost predicate Follows(options: Options, p: seq<Pass>, pass: Pass) {
    p != [] ==>
      var last := p[|p| - 1];
      last.time <= pass.time && (last.start == pass.start || last.start + options.windowMs <= pass.start)
  }

  lemma AppendOrdered(options: Options, p: seq<Pass>, pass: Pass)
    requires Ordered(p) && Disjoint(options, p) && Follows(options, p, pass)
    ensures Ordered(p + [pass]) && Disjoint(options, p + [pass])
  {
    var longer := p + [pass];
    forall i, j | 0 <= i < j < |longer|
      ensures longer[i].time <= longer[j].time
      ensures longer[i].start == longer[j].start || longer[i].start + options.windowMs <= longer[j].start
    {
      BeforeLast(options, p, i);
    }
  }

  lemma BeforeLast(options: Options, p: seq<Pass>, i: int)
    requires Ordered(p) && Disjoint(options, p) && 0 <= i < |p|
    ensures var last := p[|p| - 1];
      p[i].time <= last.time && (p[i].start == last.start || p[i].start + options.windowMs <= last.start)
  {
  }

  lemma AppendWindows(options: Options, p: seq<Pass>, pass: Pass)
    requires Windows(options, p) && Follows(options, p, pass)
    requires pass.start <= pass.time < pass.start + options.windowMs
    requires PerWindow(options) <= |p| ==> p[|p| - PerWindow(options)].start != pass.start
    requires p == [] || p[|p| - 1].start != pass.start ==> pass.time == pass.start
    ensures Windows(options, p + [pass])
  {
    AppendOrdered(options, p, pass);
    AppendOpened(p, pass);
  }

  lemma AppendOpened(p: seq<Pass>, pass: Pass)
    requires Opened(p) && (p == [] || p[|p| - 1].start != pass.start ==> pass.time == pass.start)
    ensures Opened(p + [pass])
  {
    var longer := p + [pass];
    forall i | 0 <= i < |longer| && (i == 0 || longer[i - 1].start != longer[i].start) ensures longer[i].time == longer[i].start {
      if i < |p| {
        assert longer[i] == p[i] && (i > 0 ==> longer[i - 1] == p[i - 1]);
        OpensWindow(p, i);
      } else if i > 0 {
        assert longer[i - 1] == p[|p| - 1];
      }
    }
  }

  lemma SameWindow(options: Options, p: seq<Pass>, attempt: Attempt, now: nat)
    requires Windows(options, p) && Describes(options, p, attempt)
    requires attempt.count < options.maxAttempts && attempt.resetAt > now && p[|p| - 1].time <= now
    ensures Windows(options, p + [Pass(now, p[|p| - 1].start)])
    ensures Describes(options, p + [Pass(now, p[|p| - 1].start)], Attempt(attempt.count + 1, attempt.resetAt))
  {
    hide Ordered, Disjoint, Limited, Opened;
    AppendWindows(options, p, Pass(now, p[|p| - 1].start));
  }

  lemma NewWindow(options: Options, p: seq<Pass>, now: nat)
    requires 0 < options.windowMs && Windows(options, p) && (p != [] ==> p[|p| - 1].start + options.windowMs <= now && p[|p| - 1].time <= now)
    ensures Windows(options, p + [Pass(now, now)])
    ensures Describes(options, p + [Pass(now, now)], Attempt(1, now + options.windowMs))
  {
    hide Ordered, Limited, InWindow, Opened;
    forall i | 0 <= i < |p| ensures p[i].start < now {
      assert p[i].start == p[|p| - 1].start || p[i].start + options.windowMs <= p[|p| - 1].start;
    }
    AppendWindows(options, p, Pass(now, now));
  }

  lemma CleanedSize(options: Options, s: Limiter, now: nat)
    requires |s.attempts| <= MAX_KEYS
    ensures |Cleaned(options, s, now).attempts| <= MAX_KEYS
  {
    SubsetSize(Live(s.attempts, now).Keys, s.attempts.Keys);
  }

  lemma CountedSize(options: Options, attempts: map<Id, Attempt>, key: Id, now: nat)
    requires |attempts| <= MAX_KEYS && Passes(options, attempts, key, now)
    ensures |Counted(options, attempts, key, now)| <= MAX_KEYS
  {
    var after := Counted(options, attempts, key, now);
    assert after.Keys == attempts.Keys + {key};
    assert key in attempts ==> after.Keys == attempts.Keys;
  }

  lemma StepKeepsInv(options: Options, r: Run, request: Request)
    requires 0 < options.windowMs && Inv(options, r) && r.clock <= request.now
    ensures Inv(options, Next(options, r, request))
  {
    hide KeyInv, Passes, Counted;
    var key, now := request.key, request.now;
    var t := Run(Cleaned(options, r.s, now), now, r.passes);
    CleanedSize(options, r.s, now);
    forall k ensures KeyInv(options, t, k) {
      CleanKeeps(options, r, now, k);
    }
    if Passes(options, t.s.attempts, key, now) {
      CountedSize(options, t.s.attempts, key, now);
      PassKeeps(options, t, key);
      var next := Next(options, r, request);
      forall k | k != key ensures KeyInv(options, next, k) {
        OthersUnchanged(options, t, next, key, k);
      }
    }
  }

  lemma OthersUnchanged(options: Options, r: Run, next: Run, key: Id, other: Id)
    requires KeyInv(options, r, other) && other != key && next.clock == r.clock
    requires next.s.attempts == Counted(options, r.s.attempts, key, r.clock)
    requires PassesOf(next.passes, other) == PassesOf(r.passes, other)
    ensures KeyInv(options, next, other)
  {
    hide Windows, Describes;
  }

  lemma {:induction false} RunKeepsInv(options: Options, r: Run, requests: seq<Request>)
    requires 0 < options.windowMs && Inv(options, r) && Monotone(r.clock, requests)
    ensures Inv(options, RunAll(options, r, requests))
    decreases |requests|
  {
    hide Inv;
    if requests != [] {
      StepKeepsInv(options, r, requests[0]);
      assert Next(options, r, requests[0]).clock == requests[0].now;
      RunKeepsInv(options, Next(options, r, requests[0]), requests[1..]);
    }
  }

  function Fresh(options: Options, now: nat): Run { Run(Limiter(map[], now + options.windowMs), now, map[]) }

  /** Twice the share of passes, less one, spans a window's length: they cannot all lie within one window's time. */
  lemma SpansAWindow(options: Options, p: seq<Pass>, i: nat, j: nat)
    requires Windows(options, p) && j == i + 2 * PerWindow(options) - 1 < |p|
    ensures p[i].time + options.windowMs <= p[j].time
  {
    hide InWindow, Disjoint, Limited, Ordered, Opened;
    var share := PerWindow(options);
    if i == 0 || p[i - 1].start != p[i].start {
      assert p[i].time == p[i].start by { OpensWindow(p, i); }
      NextWindow(options, p, i, i + share);
      assert p[i + share].time <= p[j].time by { InOrder(p, i + share, j); }
    } else {
      NextWindow(options, p, i - 1, i - 1 + share);
      NextWindow(options, p, i - 1 + share, j);
      InItsWindow(options, p, i);
    }
  }

  lemma InItsWindow(options: Options, p: seq<Pass>, i: nat)
    requires InWindow(options, p) && i < |p|
    ensures p[i].start <= p[i].time < p[i].start + options.windowMs
  {
  }

  lemma OpensWindow(p: seq<Pass>, i: nat)
    requires Opened(p) && i < |p| && (i == 0 || p[i - 1].start != p[i].start)
    ensures p[i].time == p[i].start
  {
  }

  lemma InOrder(p: seq<Pass>, i: nat, j: nat)
    requires Ordered(p) && i <= j < |p|
    ensures p[i].time <= p[j].time
  {
  }

  /** A full share further on, another window has begun. */
  lemma NextWindow(options: Options, p: seq<Pass>, i: nat, j: nat)
    requires InWindow(options, p) && Disjoint(options, p) && Limited(options, p) && j == i + PerWindow(options) < |p|
    ensures p[i].start + options.windowMs <= p[j].start <= p[j].time
  {
  }

  function TimesIn(p: seq<Pass>, from: nat, length: nat): set<nat> {
    set i: nat | 0 <= i < |p| && from <= p[i].time < from + length
  }

  /** n indexes from lo on. */
  function Range(lo: nat, n: nat): (s: set<nat>)
    ensures forall i :: i in s <==> lo <= i < lo + n
  {
    if n == 0 then {} else Range(lo, n - 1) + {lo + n - 1}
  }

  lemma {:induction false} RangeSize(lo: nat, n: nat)
    ensures |Range(lo, n)| == n
  {
    if n > 0 {
      RangeSize(lo, n - 1);
    }
  }

  lemma {:induction false} LeastIndex(s: set<nat>, bound: nat)
    requires bound in s
    ensures exists k :: k in s && forall other :: other in s ==> k <= other
    decreases bound
  {
    if smaller: nat :| smaller in s && smaller < bound {
      LeastIndex(s, smaller);
    } else {
      assert forall other :: other in s ==> bound <= other;
    }
  }

  lemma LessThanTwiceTheShare(options: Options, p: seq<Pass>, from: nat)
    requires Windows(options, p)
    ensures |TimesIn(p, from, options.windowMs)| <= 2 * PerWindow(options) - 1
  {
    hide Windows;
    var inside := TimesIn(p, from, options.windowMs);
    if inside != {} {
      var some :| some in inside;
      LeastIndex(inside, some);
      var lo :| lo in inside && forall other :: other in inside ==> lo <= other;
      var bound := 2 * PerWindow(options) - 1;
      forall i | i in inside ensures i < lo + bound {
        NotTooFar(options, p, lo, i);
      }
      RangeSize(lo, bound);
      SubsetSize(inside, Range(lo, bound));
    }
  }

  lemma NotTooFar(options: Options, p: seq<Pass>, lo: nat, i: nat)
    requires Windows(options, p) && lo <= i < |p| && p[i].time < p[lo].time + options.windowMs
    ensures i < lo + 2 * PerWindow(options) - 1
  {
    hide InWindow, Disjoint, Limited, Opened;
    var far := lo + 2 * PerWindow(options) - 1;
    assert far < i ==> p[far].time <= p[i].time;
    if far <= i {
      SpansAWindow(options, p, lo, far);
    }
  }

  /**
   With a clock that never goes back, in every half-open interval of one window's length fewer
   than twice the permitted number of requests pass for a key (one is always let through, even
   with a limit of zero), and the table never holds more than its maximum.
   */
  lemma LimitHoldsOverRuns(options: Options, start: nat, requests: seq<Request>, key: Id, from: nat)
    requires 0 < options.windowMs && Monotone(start, requests)
    ensures var r := RunAll(options, Fresh(options, start), requests);
      && |TimesIn(PassesOf(r.passes, key), from, options.windowMs)| <= 2 * PerWindow(options) - 1
      && |r.s.attempts| <= MAX_KEYS
  {
    RunKeepsInv(options, Fresh(options, start), requests);
    var r := RunAll(options, Fresh(options, start), requests);
    assert KeyInv(options, r, key);
    LessThanTwiceTheShare(options, PassesOf(r.passes, key), from);
  }

  // ----- the bound is attained -----

  function Repeated<T>(x: T, n: nat): (s: seq<T>)
    ensures |s| == n && forall i :: 0 <= i < n ==> s[i] == x
  {
    if n == 0 then [] else [x] + Repeated(x, n - 1)
  }

  /** One request opens a window, the rest of the share comes at its end, and a full share right after. */
  function Burst(options: Options, key: Id): seq<Request>
    requires 0 < options.windowMs
  {
    var more: nat := PerWindow(options) - 1;
    ([Request(key, 0)] + Repeated(Request(key, options.windowMs - 1), more))
    + ([Request(key, options.windowMs)] + Repeated(Request(key, options.windowMs), more))
  }

  lemma {:induction false} RunAppend(options: Options, r: Run, a: seq<Request>, b: seq<Request>)
    ensures RunAll(options, r, a + b) == RunAll(options, RunAll(options, r, a), b)
    decreases |a|
  {
    hide Next;
    if a == [] {
      assert a + b == b;
    } else {
      assert (a + b)[1..] == a[1..] + b;
      RunAppend(options, Next(options, r, a[0]), a[1..], b);
    }
  }

  /** A run in which one key's entry is all there is. */
  function Alone(key: Id, attempt: Attempt, nextCleanupAt: nat, clock: nat, p: seq<Pass>): Run {
    Run(Limiter(map[key := attempt], nextCleanupAt), clock, map[key := p])
  }

  lemma OneMore(options: Options, key: Id, attempt: Attempt, nextCleanupAt: nat, clock: nat, p: seq<Pass>, now: nat)
    requires now < nextCleanupAt && now < attempt.resetAt && attempt.count < options.maxAttempts && options.windowMs <= attempt.resetAt
    ensures Next(options, Alone(key, attempt, nextCleanupAt, clock, p), Request(key, now))
      == Alone(key, Attempt(attempt.count + 1, attempt.resetAt), nextCleanupAt, now, p + [Pass(now, attempt.resetAt - options.windowMs)])
  {
    var r := Alone(key, attempt, nextCleanupAt, clock, p);
    assert |r.s.attempts| == 1 by { assert r.s.attempts.Keys == {key}; }
    assert Cleaned(options, r.s, now) == r.s;
  }

  /** Requests of one instant within the share all pass. */
  lemma {:induction false} ManyMore(options: Options, key: Id, attempt: Attempt, nextCleanupAt: nat, clock: nat, p: seq<Pass>, now: nat, n: nat)
    requires now < nextCleanupAt && now < attempt.resetAt && options.windowMs <= attempt.resetAt
    requires 1 <= attempt.count && attempt.count + n <= PerWindow(options)
    ensures RunAll(options, Alone(key, attempt, nextCleanupAt, clock, p), Repeated(Request(key, now), n))
      == Alone(key, Attempt(attempt.count + n, attempt.resetAt), nextCleanupAt, if n == 0 then clock else now,
               p + Repeated(Pass(now, attempt.resetAt - options.windowMs), n))
    decreases n
  {
    hide Next;
    var pass := Pass(now, attempt.resetAt - options.windowMs);
    if n == 0 {
      assert p + Repeated(pass, 0) == p;
    } else {
      var requests := Repeated(Request(key, now), n);
      assert requests[0] == Request(key, now) && requests[1..] == Repeated(Request(key, now), n - 1);
      OneMore(options, key, attempt, nextCleanupAt, clock, p, now);
      ManyMore(options, key, Attempt(attempt.count + 1, attempt.resetAt), nextCleanupAt, now, p + [pass], now, n - 1);
      assert p + [pass] + Repeated(pass, n - 1) == p + Repeated(pass, n);
    }
  }

  lemma {:induction false} MonotoneRepeated(clock: nat, request: Request, n: nat, rest: seq<Request>)
    requires clock <= request.now && Monotone(request.now, rest)
    ensures Monotone(clock, Repeated(request, n) + rest)
    decreases n
  {
    if n == 0 {
      assert Repeated(request, 0) + rest == rest;
    } else {
      MonotoneRepeated(request.now, request, n - 1, rest);
      assert (Repeated(request, n) + rest)[1..] == Repeated(request, n - 1) + rest;
    }
  }

  lemma BurstIsMonotone(options: Options, key: Id)
    requires 0 < options.windowMs
    ensures Monotone(0, Burst(options, key))
  {
    var w, more: nat := options.windowMs, PerWindow(options) - 1;
    var last := Repeated(Request(key, w), more);
    MonotoneRepeated(w, Request(key, w), more, []);
    assert last + [] == last;
    var second := [Request(key, w)] + last;
    assert second[1..] == last;
    MonotoneRepeated(0, Request(key, w - 1), more, second);
    assert Burst(options, key)[1..] == Repeated(Request(key, w - 1), more) + second;
  }

  lemma BurstPasses(options: Options, key: Id)
    requires 0 < options.windowMs
    ensures var w, more: nat := options.windowMs, PerWindow(options) - 1;
      RunAll(options, Fresh(options, 0), Burst(options, key)).passes
      == map[key := [Pass(0, 0)] + Repeated(Pass(w - 1, 0), more) + [Pass(w, w)] + Repeated(Pass(w, w), more)]
  {
    hide Next;
    var w, more: nat := options.windowMs, PerWindow(options) - 1;
    var first, second := [Request(key, 0)] + Repeated(Request(key, w - 1), more), [Request(key, w)] + Repeated(Request(key, w), more);
    RunAppend(options, Fresh(options, 0), first, second);
    assert first[1..] == Repeated(Request(key, w - 1), more) && second[1..] == Repeated(Request(key, w), more);
    FirstRequest(options, key);
    ManyMore(options, key, Attempt(1, w), w, 0, [Pass(0, 0)], w - 1, more);
    var p := [Pass(0, 0)] + Repeated(Pass(w - 1, 0), more);
    var clock := if more == 0 then 0 else w - 1;
    SecondWindow(options, key, Attempt(1 + more, w), clock, p);
    ManyMore(options, key, Attempt(1, 2 * w), 2 * w, w, p + [Pass(w, w)], w, more);
  }

  lemma FirstRequest(options: Options, key: Id)
    requires 0 < options.windowMs
    ensures Next(options, Fresh(options, 0), Request(key, 0)) == Alone(key, Attempt(1, options.windowMs), options.windowMs, 0, [Pass(0, 0)])
  {
    assert Cleaned(options, Fresh(options, 0).s, 0) == Fresh(options, 0).s;
    assert [] + [Pass(0, 0)] == [Pass(0, 0)];
  }

  lemma SecondWindow(options: Options, key: Id, attempt: Attempt, clock: nat, p: seq<Pass>)
    requires 0 < options.windowMs && attempt.resetAt == options.windowMs
    ensures Next(options, Alone(key, attempt, options.windowMs, clock, p), Request(key, options.windowMs))
      == Alone(key, Attempt(1, 2 * options.windowMs), 2 * options.windowMs, options.windowMs, p + [Pass(options.windowMs, options.windowMs)])
  {
    var w := options.windowMs;
    var r := Alone(key, attempt, w, clock, p);
    assert Live(r.s.attempts, w) == map[];
    assert Cleaned(options, r.s, w) == Limiter(map[], 2 * w);
  }

  /** The bound is tight for every limit and every window longer than one tick. */
  lemma BoundIsAttained(options: Options, key: Id)
    requires 2 <= options.windowMs
    ensures var r := RunAll(options, Fresh(options, 0), Burst(options, key));
      && Monotone(0, Burst(options, key))
      && |TimesIn(PassesOf(r.passes, key), options.windowMs - 1, options.windowMs)| == 2 * PerWindow(options) - 1
  {
    hide RunAll, Burst;
    BurstIsMonotone(options, key);
    BurstPasses(options, key);
    var w, more: nat := options.windowMs, PerWindow(options) - 1;
    BurstTimes(w, more);
  }

  lemma BurstTimes(w: nat, more: nat)
    requires 2 <= w
    ensures |TimesIn([Pass(0, 0)] + Repeated(Pass(w - 1, 0), more) + [Pass(w, w)] + Repeated(Pass(w, w), more), w - 1, w)| == 2 * more + 1
  {
    hide Repeated, Range, TimesIn;
    var head, tail := [Pass(0, 0)] + Repeated(Pass(w - 1, 0), more) + [Pass(w, w)], Repeated(Pass(w, w), more);
    var p := head + tail;
    forall i | 0 <= i < |p| ensures p[i].time == if i == 0 then 0 else if i <= more then w - 1 else w {
      assert p[i] == if i < |head| then head[i] else tail[i - |head|];
    }
    TimesFrom(p, w - 1, w);
  }

  lemma TimesFrom(p: seq<Pass>, from: nat, length: nat)
    requires p != [] && p[0].time < from && forall i :: 1 <= i < |p| ==> from <= p[i].time < from + length
    ensures |TimesIn(p, from, length)| == |p| - 1
  {
    hide Range;
    assert TimesIn(p, from, length) == Range(1, |p| - 1);
    RangeSize(1, |p| - 1);
  }
}
