/** Whole runs of one process's breaker: what holds after every history of calls that do
    not overlap, when failures must open it, and what overlapping calls can do. */
module CircuitRuns {
  import Breaker
  import opened CircuitSpec

  /** One operation on the breaker. A call is admitted or refused at `start` and, if it
      ran, is recorded at `finish`. */
  datatype Event =
    | Call(start: Time, finish: Time, ok: bool)
    | Look(start: Time, finish: Time)
    | External(start: Time, finish: Time)
    | Force(start: Time, finish: Time)

  /** What the event left behind, as a caller saw it. */
  datatype Entry = Failed(at: Time) | Succeeded(at: Time) | Refused(at: Time) | Forced(at: Time) | Ignored(at: Time)

  function Step(c: Config, s: CircuitState, e: Event): (CircuitState, Entry) {
    match e
    case Call(start, finish, ok) =>
      var seen := Coerced(c, s, start);
      if seen.phase.Open? then (seen, Refused(start))
      else if ok then (AfterSuccess(seen), Succeeded(finish))
      else (AfterFailure(c, seen, finish), Failed(finish))
    case Look(start, _) => (Coerced(c, s, start), Ignored(start))
    case External(start, _) =>
      if s.phase.Open? then (s, Ignored(start)) else (AfterFailure(c, s, start), Failed(start))
    case Force(start, _) => (Tripped(c, start), Forced(start))
  }

  datatype Run = Run(state: CircuitState, log: seq<Entry>)

  function Play(c: Config, r: Run, es: seq<Event>): Run
    decreases |es|
  {
    if es == [] then r
    else
      var (s, entry) := Step(c, r.state, es[0]);
      Play(c, Run(s, r.log + [entry]), es[1..])
  }

  const START: Run := Run(FRESH, [])

  /** Events one after another, none before `from`; only a call takes time. */
  predicate NonOverlapping(es: seq<Event>, from: Time)
    requires from >= 0.0
  {
    es == [] ||
    (&& es[0].start >= from && es[0].start > 0.0
     && es[0].finish >= es[0].start
     && (!es[0].Call? ==> es[0].finish == es[0].start)
     && NonOverlapping(es[1..], es[0].finish))
  }

  function EndOf(es: seq<Event>, from: Time): Time {
    if es == [] then from else es[|es| - 1].finish
  }

  // ----- the log's own account of failures, independent of the breaker -----

  /** The failures recorded since the last success. */
  function Streak(log: seq<Entry>): seq<Time> {
    if log == [] then []
    else match log[|log| - 1]
      case Failed(at) => Streak(log[..|log| - 1]) + [at]
      case Succeeded(_) => []
      case _ => Streak(log[..|log| - 1])
  }

  function CountSince(ts: seq<Time>, from: Time): nat {
    if ts == [] then 0
    else CountSince(ts[..|ts| - 1], from) + if ts[|ts| - 1] >= from then 1 else 0
  }

  // ----- the run invariant -----

  predicate SortedUpTo(ts: seq<Time>, now: Time) {
    && (forall i, j :: 0 <= i < j < |ts| ==> ts[i] <= ts[j])
    && (forall i :: 0 <= i < |ts| ==> 0.0 < ts[i] <= now)
  }

  /** The window holds exactly the last `k` failures of the streak and began at the first of them. */
  predicate InWindow(c: Config, ts: seq<Time>, started: Time, k: int) {
    && 0 < k <= |ts|
    && ts[|ts| - k] == started
    && ts[|ts| - 1] <= started + c.window
    && (forall i :: 0 <= i < |ts| - k ==> ts[i] < started)
  }

  ghost predicate Inv(c: Config, s: CircuitState, ts: seq<Time>, now: Time) {
    && SortedUpTo(ts, now)
    && (s.phase.Closed? ==>
          && s.failureCount < c.threshold
          && (ts == [] ==> s.failureCount == 0 && s.windowStartedAt == 0.0)
          && (ts != [] ==> InWindow(c, ts, s.windowStartedAt, s.failureCount)))
    && (!s.phase.Closed? ==> s.failureCount == c.threshold && s.openedAt <= now)
  }

  lemma {:induction false} StreakOfAppend(log: seq<Entry>, e: Entry)
    ensures Streak(log + [e]) ==
      if e.Failed? then Streak(log) + [e.at] else if e.Succeeded? then [] else Streak(log)
  {
    assert (log + [e])[..|log|] == log;
  }

  lemma {:induction false} LaterKeepsInv(c: Config, s: CircuitState, ts: seq<Time>, now: Time, later: Time)
    requires Inv(c, s, ts, now) && now <= later
    ensures Inv(c, s, ts, later) && Inv(c, Coerced(c, s, later), ts, later)
  {
  }

  lemma {:induction false} FailureExtendsStreak(ts: seq<Time>, now: Time)
    requires SortedUpTo(ts, now) && now > 0.0
    ensures SortedUpTo(ts + [now], now)
  {
  }

  lemma {:induction false} FailureKeepsInv(c: Config, s: CircuitState, ts: seq<Time>, now: Time)
    requires c.Sane() && now > 0.0 && Inv(c, s, ts, now) && !s.phase.Open?
    ensures Inv(c, AfterFailure(c, s, now), ts + [now], now)
    ensures s.phase.Closed? && AfterFailure(c, s, now).phase.Open? ==>
      |ts| + 1 >= c.threshold && now - (ts + [now])[|ts| + 1 - c.threshold] <= c.window
  {
    FailureExtendsStreak(ts, now);
    if s.phase.Closed? {
      if WindowExpired(c, s, now) {
        assert InWindow(c, ts + [now], now, 1);
      } else {
        assert ts != [];
        assert InWindow(c, ts + [now], s.windowStartedAt, s.failureCount + 1);
      }
    }
  }

  lemma {:induction false} StepKeepsInv(c: Config, s: CircuitState, log: seq<Entry>, now: Time, e: Event)
    requires c.Sane() && now >= 0.0 && Inv(c, s, Streak(log), now) && NonOverlapping([e], now)
    ensures Inv(c, Step(c, s, e).0, Streak(log + [Step(c, s, e).1]), e.finish)
  {
    var ts := Streak(log);
    var (s', entry) := Step(c, s, e);
    StreakOfAppend(log, entry);
    LaterKeepsInv(c, s, ts, now, e.start);
    var seen := Coerced(c, s, e.start);
    LaterKeepsInv(c, seen, ts, e.start, e.finish);
    if entry.Failed? {
      FailureKeepsInv(c, if e.Call? then seen else s, ts, e.finish);
    }
  }

  /** The longest suffix reading of the window and the plain count agree. */
  lemma {:induction false} WindowCounts(c: Config, ts: seq<Time>, started: Time, k: int, now: Time)
    requires SortedUpTo(ts, now) && 0 <= k <= |ts|
    requires forall i :: 0 <= i < |ts| - k ==> ts[i] < started
    requires forall i :: |ts| - k <= i < |ts| ==> ts[i] >= started
    ensures CountSince(ts, started) == k
  {
    if ts != [] {
      WindowCounts(c, ts[..|ts| - 1], started, if k > 0 then k - 1 else 0, now);
    }
  }

  lemma {:induction false} PlayKeepsInv(c: Config, r: Run, es: seq<Event>, now: Time)
    requires c.Sane() && now >= 0.0 && Inv(c, r.state, Streak(r.log), now) && NonOverlapping(es, now)
    ensures var end := Play(c, r, es); Inv(c, end.state, Streak(end.log), EndOf(es, now))
    decreases |es|
  {
    if es != [] {
      StepKeepsInv(c, r.state, r.log, now, es[0]);
      var (s, entry) := Step(c, r.state, es[0]);
      PlayKeepsInv(c, Run(s, r.log + [entry]), es[1..], es[0].finish);
    }
  }

  lemma {:induction false} ClosedCounts(c: Config, s: CircuitState, ts: seq<Time>, now: Time)
    requires Inv(c, s, ts, now) && s.phase.Closed?
    ensures s.failureCount == CountSince(ts, s.windowStartedAt) < c.threshold
  {
    if ts != [] {
      WindowCounts(c, ts, s.windowStartedAt, s.failureCount, now);
    }
  }

  /** After every run of non-overlapping operations: a closed breaker counts exactly the
      failures since the last success that lie in the current window, and stays below the
      threshold; an open or half-open one holds the threshold itself. */
  lemma {:induction false} CountIsTheWindow(c: Config, es: seq<Event>)
    requires c.Sane() && NonOverlapping(es, 0.0)
    ensures var r := Play(c, START, es);
      if r.state.phase.Closed?
      then r.state.failureCount == CountSince(Streak(r.log), r.state.windowStartedAt) < c.threshold
      else r.state.failureCount == c.threshold
  {
    PlayKeepsInv(c, START, es, 0.0);
    var s, log := Play(c, START, es).state, Play(c, START, es).log;
    if s.phase.Closed? {
      ClosedCounts(c, s, Streak(log), EndOf(es, 0.0));
    }
  }

  predicate Looks(es: seq<Event>) {
    forall i :: 0 <= i < |es| ==> es[i].Look?
  }

  /** Observations change nothing but the phase, from open to half-open, and that exactly from
      the first one at which the recovery timeout has passed. */
  lemma {:induction false} LookingOnlyRecovers(c: Config, r: Run, es: seq<Event>)
    requires Looks(es) && r.state.windowStartedAt != 0.0
    ensures Play(c, r, es).state ==
      if r.state.phase == Open && exists i :: 0 <= i < |es| && es[i].start - r.state.openedAt >= c.recovery
      then r.state.(phase := HalfOpen) else r.state
    decreases |es|
  {
    if es != [] {
      var (s, entry) := Step(c, r.state, es[0]);
      LookingOnlyRecovers(c, Run(s, r.log + [entry]), es[1..]);
      assert forall i :: 1 <= i < |es| ==> es[i] == es[1..][i - 1];
    }
  }

  /** What a step that takes a closed breaker to open must have been, given the log so far. */
  lemma {:induction false} OpeningStep(c: Config, s: CircuitState, log: seq<Entry>, now: Time, e: Event)
    requires c.Sane() && now >= 0.0 && Inv(c, s, Streak(log), now) && NonOverlapping([e], now)
    requires s.phase.Closed? && Step(c, s, e).0.phase.Open? && !e.Force?
    ensures Step(c, s, e).1 == Failed(e.finish) && Step(c, s, e).0.openedAt == e.finish
    ensures var ts := Streak(log + [Failed(e.finish)]);
      |ts| >= c.threshold && ts[|ts| - 1] - ts[|ts| - c.threshold] <= c.window
  {
    assert Step(c, s, e) == (AfterFailure(c, s, e.finish), Failed(e.finish));
    StreakOfAppend(log, Failed(e.finish));
    LaterKeepsInv(c, s, Streak(log), now, e.finish);
    FailureKeepsInv(c, s, Streak(log), e.finish);
  }

  /** Any step that takes a closed breaker to open, other than an operator's force, is a
      failure that completes `threshold` failures, none separated by a success, within one window. */
  lemma {:induction false} OpensOnlyAfterThreshold(c: Config, es: seq<Event>, r: Run, e: Event)
    requires c.Sane() && NonOverlapping(es, 0.0) && r == Play(c, START, es)
    requires EndOf(es, 0.0) >= 0.0 && NonOverlapping([e], EndOf(es, 0.0))
    requires r.state.phase.Closed? && Step(c, r.state, e).0.phase.Open? && !e.Force?
    ensures var (s', entry) := Step(c, r.state, e);
      var ts := Streak(r.log + [entry]);
      && entry.Failed? && s'.openedAt == entry.at
      && |ts| >= c.threshold && ts[|ts| - 1] - ts[|ts| - c.threshold] <= c.window
  {
    RunHasInv(c, es, r);
    OpeningStep(c, r.state, r.log, EndOf(es, 0.0), e);
  }

  lemma {:induction false} RunHasInv(c: Config, es: seq<Event>, r: Run)
    requires c.Sane() && NonOverlapping(es, 0.0) && r == Play(c, START, es)
    ensures Inv(c, r.state, Streak(r.log), EndOf(es, 0.0))
  {
    PlayKeepsInv(c, START, es, 0.0);
  }

  predicate Ran(e: Entry) {
    e.Failed? || e.Succeeded?
  }

  /** From any open state, every history that starts no event before `recovery` has passed
      since it opened runs no operation at all and leaves the breaker open. */
  lemma {:induction false} NothingRunsBeforeRecovery(c: Config, r: Run, es: seq<Event>)
    requires r.state.phase.Open?
    requires forall i :: 0 <= i < |es| ==> r.state.openedAt <= es[i].start < r.state.openedAt + c.recovery
    requires forall i, j :: 0 <= i < j < |es| ==> es[i].start <= es[j].start
    ensures var end := Play(c, r, es);
      && end.state.phase.Open? && end.state.openedAt >= r.state.openedAt
      && |end.log| == |r.log| + |es| && end.log[..|r.log|] == r.log
      && forall i :: |r.log| <= i < |end.log| ==> !Ran(end.log[i])
    decreases |es|
  {
    if es != [] {
      var (s, entry) := Step(c, r.state, es[0]);
      var next := Run(s, r.log + [entry]);
      NothingRunsBeforeRecovery(c, next, es[1..]);
      var end := Play(c, r, es);
      assert end.log[..|r.log|] == end.log[..|next.log|][..|r.log|] == r.log;
      assert end.log[|r.log|] == end.log[..|next.log|][|r.log|] == entry;
    }
  }

  /** Once the timeout has passed, after any stretch of such refusals, the next call is let
      through as a trial: its success closes the breaker, its failure opens it for another timeout. */
  lemma {:induction false} TrialDecides(c: Config, r: Run, es: seq<Event>, e: Event)
    requires r.state.phase.Open? && AllCalls(es) && e.Call?
    requires forall i :: 0 <= i < |es| ==> r.state.openedAt <= es[i].start < r.state.openedAt + c.recovery
    requires e.start >= r.state.openedAt + c.recovery
    ensures var (s, entry) := Step(c, Play(c, r, es).state, e);
      if e.ok then s == FRESH && entry == Succeeded(e.finish) else s == Tripped(c, e.finish) && entry == Failed(e.finish)
  {
    RefusalsChangeNothing(c, r, es);
  }

  predicate AllCalls(es: seq<Event>) {
    forall i :: 0 <= i < |es| ==> es[i].Call?
  }

  lemma {:induction false} RefusalsChangeNothing(c: Config, r: Run, es: seq<Event>)
    requires r.state.phase.Open? && AllCalls(es)
    requires forall i :: 0 <= i < |es| ==> r.state.openedAt <= es[i].start < r.state.openedAt + c.recovery
    ensures Play(c, r, es).state == r.state
    decreases |es|
  {
    if es != [] {
      var (s, entry) := Step(c, r.state, es[0]);
      RefusalsChangeNothing(c, Run(s, r.log + [entry]), es[1..]);
    }
  }

  // ----- when failures must open the breaker -----

  predicate AllFailingCalls(es: seq<Event>) {
    forall i :: 0 <= i < |es| ==> es[i].Call? && !es[i].ok
  }

  function Enough(c: Config): int {
    if 2 * c.threshold - 2 > c.threshold then 2 * c.threshold - 2 else c.threshold
  }

  /** Once not closed, failing calls never close it: each is refused or trips it again. */
  lemma {:induction false} FailingKeepsOpen(c: Config, r: Run, es: seq<Event>)
    requires AllFailingCalls(es) && r.state.phase.Open?
    ensures Play(c, r, es).state.phase.Open?
    decreases |es|
  {
    if es != [] {
      assert es[0].Call? && !es[0].ok;
      var (s, entry) := Step(c, r.state, es[0]);
      FailingKeepsOpen(c, Run(s, r.log + [entry]), es[1..]);
    }
  }

  /** With `k` failures counted, either the window began inside this run and
      `threshold - k` more suffice, or it may still reset once, after which `threshold` suffice. */
  lemma {:induction false} FailuresFill(c: Config, r: Run, es: seq<Event>, now: Time, first: Time)
    requires c.Sane() && now >= 0.0 && NonOverlapping(es, now) && AllFailingCalls(es)
    requires r.state.phase.Closed? && 0 <= r.state.failureCount < c.threshold
    requires forall i :: 0 <= i < |es| ==> first <= es[i].finish <= first + c.window
    requires first > 0.0
    requires r.state.failureCount == 0 ==> r.state.windowStartedAt == 0.0
    requires if r.state.windowStartedAt >= first then |es| >= c.threshold - r.state.failureCount
             else if r.state.failureCount == 0 then |es| >= c.threshold
             else |es| >= 2 * c.threshold - 1 - r.state.failureCount
    ensures Play(c, r, es).state.phase.Open?
    decreases |es|
  {
    assert es[0].Call? && !es[0].ok;
    var (s, entry) := Step(c, r.state, es[0]);
    var next := Run(s, r.log + [entry]);
    if s.phase.Open? {
      FailingKeepsOpen(c, next, es[1..]);
    } else {
      FailuresFill(c, next, es[1..], es[0].finish, first);
    }
  }

  /** From any reachable closed state, `max(T, 2T-2)` failing calls recorded within one
      window length always leave the breaker open, though the window may reset meanwhile. */
  lemma {:induction false} EnoughFailuresOpen(c: Config, before: seq<Event>, es: seq<Event>)
    requires c.Sane() && NonOverlapping(before + es, 0.0)
    requires Play(c, START, before).state.phase.Closed?
    requires AllFailingCalls(es) && |es| >= Enough(c)
    requires es[|es| - 1].finish - es[0].finish <= c.window
    ensures Play(c, START, before + es).state.phase.Open?
  {
    SplitRun(c, START, before, es, 0.0);
    ClosedRunsCount(c, before);
    FinishesAreOrdered(es, EndOf(before, 0.0));
    FailuresFill(c, Play(c, START, before), es, EndOf(before, 0.0), es[0].finish);
  }

  lemma {:induction false} ClosedRunsCount(c: Config, es: seq<Event>)
    requires c.Sane() && NonOverlapping(es, 0.0) && Play(c, START, es).state.phase.Closed?
    ensures var s := Play(c, START, es).state;
      0 <= s.failureCount < c.threshold && (s.failureCount == 0 ==> s.windowStartedAt == 0.0)
  {
    PlayKeepsInv(c, START, es, 0.0);
  }

  lemma {:induction false} SplitRun(c: Config, r: Run, a: seq<Event>, b: seq<Event>, from: Time)
    requires from >= 0.0 && NonOverlapping(a + b, from)
    ensures Play(c, r, a + b) == Play(c, Play(c, r, a), b)
    ensures NonOverlapping(a, from) && EndOf(a, from) >= from && NonOverlapping(b, EndOf(a, from))
    decreases |a|
  {
    if a == [] {
      assert a + b == b;
    } else {
      var (s, entry) := Step(c, r.state, a[0]);
      assert (a + b)[1..] == a[1..] + b;
      SplitRun(c, Run(s, r.log + [entry]), a[1..], b, a[0].finish);
    }
  }

  lemma {:induction false} FinishesAreOrdered(es: seq<Event>, from: Time)
    requires from >= 0.0 && NonOverlapping(es, from)
    ensures forall i, j :: 0 <= i <= j < |es| ==> from <= es[i].finish <= es[j].finish
    ensures forall i :: 0 <= i < |es| ==> es[i].finish > 0.0
    decreases |es|
  {
    if es != [] {
      FinishesAreOrdered(es[1..], es[0].finish);
    }
  }

  // ----- the bound is tight -----

  /** `n` failing calls, all at time `at`. */
  function Burst(at: Time, n: nat): (es: seq<Event>)
    ensures |es| == n && AllFailingCalls(es)
    ensures forall i :: 0 <= i < n ==> es[i].start == es[i].finish == at
  {
    if n == 0 then [] else [Call(at, at, false)] + Burst(at, n - 1)
  }

  lemma {:induction false} BurstIsTimed(at: Time, n: nat, from: Time, rest: seq<Event>)
    requires 0.0 <= from <= at && at > 0.0 && NonOverlapping(rest, at)
    ensures NonOverlapping(Burst(at, n) + rest, from)
    ensures n > 0 ==> NonOverlapping(Burst(at, n) + rest, at)
    decreases n
  {
    if n == 0 {
      assert Burst(at, n) + rest == rest;
      WeakenFrom(rest, at, from);
    } else {
      BurstIsTimed(at, n - 1, at, rest);
      assert (Burst(at, n) + rest)[1..] == Burst(at, n - 1) + rest;
    }
  }

  lemma {:induction false} WeakenFrom(es: seq<Event>, from: Time, earlier: Time)
    requires 0.0 <= earlier <= from && NonOverlapping(es, from)
    ensures NonOverlapping(es, earlier)
  {
  }

  /** A burst inside a window that has room for it only raises the count. */
  lemma {:induction false} BurstCounts(c: Config, r: Run, at: Time, n: nat)
    requires c.Sane() && r.state.phase.Closed? && r.state.windowStartedAt > 0.0
    requires at - r.state.windowStartedAt <= c.window
    requires 0 <= r.state.failureCount && r.state.failureCount + n < c.threshold
    ensures var s := Play(c, r, Burst(at, n)).state;
      s == r.state.(failureCount := r.state.failureCount + n)
    decreases n
  {
    if n > 0 {
      var (s, entry) := Step(c, r.state, Burst(at, n)[0]);
      BurstCounts(c, Run(s, r.log + [entry]), at, n - 1);
    }
  }

  /** For every sane configuration one failure fewer can leave the breaker closed: an old
      failure keeps a window alive that expires in the middle of the burst. */
  lemma {:induction false} OneFewerMayNotOpen(c: Config) returns (before: seq<Event>, es: seq<Event>)
    requires c.Sane()
    ensures NonOverlapping(before + es, 0.0) && Play(c, START, before).state.phase.Closed?
    ensures AllFailingCalls(es) && |es| == Enough(c) - 1
    ensures forall i, j :: 0 <= i < |es| && 0 <= j < |es| ==> es[i].finish - es[j].finish <= c.window
    ensures Play(c, START, before + es).state.phase.Closed?
  {
    var T := c.threshold;
    if T <= 2 {
      before, es := [], Burst(1.0, T - 1);
      assert es == [] || (|es| == 1 && es[0] == Call(1.0, 1.0, false));
      assert before + es == es;
      if T == 2 {
        assert es == [Call(1.0, 1.0, false)];
        assert es[1..] == [];
      }
    } else {
      var late, later := 1.0 + c.window, 1.0 + c.window + c.window;
      var a, b := Burst(late, T - 2), Burst(later, T - 1);
      before, es := [Call(1.0, 1.0, false)], a + b;
      assert b + [] == b && before[1..] == [];
      BurstIsTimed(later, T - 1, late, []);
      BurstIsTimed(late, T - 2, 1.0, b);
      assert (before + es)[1..] == a + b;
      SplitRun(c, START, before, es, 0.0);
      var r := Play(c, START, before);
      assert r.state == CircuitState(Closed, 1, 1.0, 0.0) by {
        assert r == Play(c, Run(CircuitState(Closed, 1, 1.0, 0.0), [Failed(1.0)]), []);
      }
      SplitRun(c, r, a, b, 1.0);
      BurstCounts(c, r, late, T - 2);
      var mid := Play(c, r, a);
      assert mid.state == CircuitState(Closed, T - 1, 1.0, 0.0);
      var (s, entry) := Step(c, mid.state, b[0]);
      assert s == CircuitState(Closed, 1, later, 0.0);
      assert b[1..] == Burst(later, T - 2);
      BurstCounts(c, Run(s, mid.log + [entry]), later, T - 2);
    }
  }

  predicate WithinWindow(c: Config, es: seq<Event>) {
    forall i, j :: 0 <= i < |es| && 0 <= j < |es| ==> es[i].finish - es[j].finish <= c.window
  }

  /** `es` are failing calls within one window length, after a run that leaves the breaker closed. */
  predicate FailingBurst(c: Config, before: seq<Event>, es: seq<Event>) {
    NonOverlapping(before + es, 0.0) && Play(c, START, before).state.phase.Closed? && AllFailingCalls(es) && WithinWindow(c, es)
  }

  /** No fewer failures than that are sure to open it: what opens on fewer would not have
      closed again by the end of the run above. */
  lemma {:induction false} FewerMayNotOpen(c: Config, n: nat) returns (before: seq<Event>, es: seq<Event>)
    requires c.Sane() && n < Enough(c)
    ensures FailingBurst(c, before, es) && |es| == n && !Play(c, START, before + es).state.phase.Open?
  {
    var all;
    before, all := OneFewerMayNotOpen(c);
    es := all[..n];
    assert before + all == (before + es) + all[n..];
    SplitRun(c, START, before + es, all[n..], 0.0);
    assert AllFailingCalls(all[n..]);
    var r := Play(c, START, before + es);
    if r.state.phase.Open? {
      FailingKeepsOpen(c, r, all[n..]);
    }
  }

  /** `n` failing calls within one window length open the breaker from every reachable closed
      state if and only if `n` is at least `max(T, 2T-2)`. */
  lemma {:induction false} FailuresOpenIff(c: Config, n: nat)
    requires c.Sane()
    ensures n >= Enough(c) <==>
      forall before, es :: FailingBurst(c, before, es) && |es| == n ==> Play(c, START, before + es).state.phase.Open?
  {
    if n >= Enough(c) {
      forall before, es | FailingBurst(c, before, es) && |es| == n
        ensures Play(c, START, before + es).state.phase.Open?
      {
        EnoughFailuresOpen(c, before, es);
      }
    } else {
      var before, es := FewerMayNotOpen(c, n);
    }
  }

  // ----- a late failure and an external one -----

  /** A failure recorded while the breaker is open (its call was admitted earlier) closes
      it exactly when the failure window has expired and one failure is below the threshold. */
  lemma {:induction false} LateFailureCloses(c: Config, s: CircuitState, now: Time)
    requires c.Sane() && s.phase.Open? && s.failureCount >= c.threshold
    ensures AfterFailure(c, s, now).phase.Closed? <==> WindowExpired(c, s, now) && c.threshold > 1
  {
  }

  /** An external failure and an observation commute except on an open, recovered breaker:
      there the failure is dropped if it comes first and re-opens it if it comes second. */
  lemma {:induction false} ExternalFailureCommutes(c: Config, s: CircuitState, now: Time)
    requires now > 0.0
    ensures var seen := Step(c, Step(c, s, Look(now, now)).0, External(now, now)).0;
      var unseen := Step(c, Step(c, s, External(now, now)).0, Look(now, now)).0;
      && (Recovered(c, s, now) ==> seen == Tripped(c, now) && unseen.phase.HalfOpen?)
      && (!Recovered(c, s, now) && c.recovery > 0.0 ==> seen == unseen)
  {
  }

  // ----- a process that is the only writer of its record -----

  /** The guarded call of an event, as the breaker's `CallSync` takes it. */
  function TrialOf(e: Event, io: Io): Breaker.Trial<()>
    requires e.Call?
  {
    Breaker.Trial(e.start, e.finish, if e.ok then Breaker.Answered(()) else Breaker.ConnectionFailed, io, io)
  }

  function StepView(c: Config, w: Wiring, v: View, e: Event, io: Io): View {
    match e
    case Call(_, _, _) => Breaker.CallView(c, w, v, TrialOf(e, io))
    case Look(start, _) => Observe(c, w, v, start, io)
    case External(start, _) => CircuitSpec.ExternalFailure(c, w, v, start, io)
    case Force(start, _) => ForceOpen(c, w, v, start, io)
  }

  function PlayView(c: Config, w: Wiring, v: View, es: seq<Event>, io: Io): View
    decreases |es|
  {
    if es == [] then v else PlayView(c, w, StepView(c, w, v, es[0], io), es[1..], io)
  }

  /** Which of the events are calls whose operation the breaker invoked. */
  function Invoked(c: Config, w: Wiring, v: View, es: seq<Event>, io: Io): (ran: seq<bool>)
    ensures |ran| == |es|
    decreases |es|
  {
    if es == [] then []
    else [es[0].Call? && Breaker.Invokes(c, w, v, TrialOf(es[0], io))] + Invoked(c, w, StepView(c, w, v, es[0], io), es[1..], io)
  }

  /** No store is consulted, or the store holds nothing but this process's own record. */
  predicate SoleWriter(w: Wiring, v: View, io: Io) {
    && v.disabledUntil == 0.0
    && (w.isRedis || !w.hasStore
        || (io.readOk && io.writeOk && (v.stored.Some? ==> v.stored.value == v.local)))
  }

  lemma {:induction false} StepViewFollows(c: Config, w: Wiring, v: View, e: Event, io: Io)
    requires SoleWriter(w, v, io) && e.start > 0.0 && e.finish >= e.start
    ensures var v' := StepView(c, w, v, e, io);
      v'.local == Step(c, v.local, e).0 && SoleWriter(w, v', io)
    ensures e.Call? ==> (Breaker.Invokes(c, w, v, TrialOf(e, io)) <==> Ran(Step(c, v.local, e).1))
  {
  }

  /** The run theorems above hold of the class: a breaker whose record no one else writes
      goes through exactly the states of `Play`, and invokes the operation of exactly the
      calls that the log says ran. */
  lemma {:induction false} PlayViewFollows(c: Config, w: Wiring, v: View, r: Run, es: seq<Event>, io: Io, from: Time)
    requires from >= 0.0 && NonOverlapping(es, from) && SoleWriter(w, v, io) && v.local == r.state
    ensures var end := Play(c, r, es);
      && PlayView(c, w, v, es, io).local == end.state
      && |end.log| == |r.log| + |es| && end.log[..|r.log|] == r.log
      && forall i :: 0 <= i < |es| ==>
           (Invoked(c, w, v, es, io)[i] <==> es[i].Call? && Ran(end.log[|r.log| + i]))
    decreases |es|
  {
    if es != [] {
      StepViewFollows(c, w, v, es[0], io);
      var (s, entry) := Step(c, r.state, es[0]);
      var next, end := Run(s, r.log + [entry]), Play(c, r, es);
      PlayViewFollows(c, w, StepView(c, w, v, es[0], io), next, es[1..], io, es[0].finish);
      assert end.log[..|r.log|] == end.log[..|next.log|][..|r.log|] == r.log;
      assert end.log[|r.log|] == end.log[..|next.log|][|r.log|] == entry;
      forall i | 0 < i < |es| ensures Invoked(c, w, v, es, io)[i] <==> es[i].Call? && Ran(end.log[|r.log| + i]) {
        assert es[i] == es[1..][i - 1];
      }
    }
  }
}
