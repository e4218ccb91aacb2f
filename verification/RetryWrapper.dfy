/** The retry loop around the vector store's breaker, as a function of what each attempt
    would meet: how often the operation ran, how long the loop slept, what it replied. */
module RetryWrapper {
  import opened CircuitSpec
  import opened Breaker

  /** What the environment does: one trial per attempt, and the clock and store outcomes
      of the loop's own breaker calls. */
  datatype Plan<+R> = Plan(trials: seq<Trial<R>>, endAt: Time, endIo: Io, forceIo: Io)

  datatype Options = Options(hasFallback: bool, fallbackOnError: bool, maxRetries: int, initialBackoff: Time)

  /** One run of the operation, with the breaker record as loaded just before it. */
  datatype Invocation = Invocation(at: Time, loaded: CircuitState)

  datatype Trace<+R> = Trace(view: View, reply: Reply<R>, ran: seq<Invocation>, slept: Time)

  function Pow2(n: nat): real {
    if n == 0 then 1.0 else 2.0 * Pow2(n - 1)
  }

  /** The sleep after attempt `i`: the initial backoff doubled `i` times. */
  function Pause(initial: Time, i: nat): Time {
    if i == 0 then initial else 2.0 * Pause(initial, i - 1)
  }

  function PhaseShown(w: Wiring, v: View, now: Time): Phase {
    if w.isRedis && now < v.disabledUntil && v.local.phase.Closed? then Open else v.local.phase
  }

  /** After the loop: fall back on an open breaker, else report the last error. */
  function Finished<R>(c: Config, w: Wiring, v: View, p: Plan<R>, failed: bool, o: Options): Trace<R> {
    var seen := Observe(c, w, v, p.endAt, p.endIo);
    var reply :=
      if PhaseShown(w, seen, p.endAt).Open? && o.hasFallback then FellBack
      else if failed then Raised(ConnectionFailure)
      else Raised(NoResult);
    Trace(seen, reply, [], 0.0)
  }

  function Invocations<R>(c: Config, w: Wiring, v: View, t: Trial<R>): seq<Invocation> {
    if Invokes(c, w, v, t) then [Invocation(t.start, Load(w, v, t.start, t.before.readOk).local)] else []
  }

  predicate Covers<R>(p: Plan<R>, o: Options) {
    |p.trials| >= o.maxRetries
  }

  function Attempts<R>(c: Config, w: Wiring, v: View, p: Plan<R>, i: nat, o: Options): Trace<R>
    requires Covers(p, o)
    decreases o.maxRetries - i
  {
    if i >= o.maxRetries then Finished(c, w, v, p, false, o)
    else
      var t := p.trials[i];
      var v1 := CallView(c, w, v, t);
      var reply := CallReply(c, w, v, t, o.hasFallback);
      var ran := Invocations(c, w, v, t);
      if reply == Raised(ResponseFailure) && o.fallbackOnError && o.hasFallback then
        Trace(ForceOpen(c, w, v1, t.finish, p.forceIo), FellBack, ran, 0.0)
      else if reply != Raised(ConnectionFailure) then Trace(v1, reply, ran, 0.0)
      else if i == o.maxRetries - 1 then
        var end := Finished(c, w, v1, p, true, o);
        end.(ran := ran)
      else
        var rest := Attempts(c, w, v1, p, i + 1, o);
        Trace(rest.view, rest.reply, ran + rest.ran, Pause(o.initialBackoff, i) + rest.slept)
  }

  predicate OpenUnrecovered(c: Config, s: CircuitState, now: Time) {
    s.phase.Open? && now - s.openedAt < c.recovery
  }

  lemma {:induction false} AttemptsBounds<R>(c: Config, w: Wiring, v: View, p: Plan<R>, i: nat, o: Options)
    requires Covers(p, o) && o.initialBackoff >= 0.0 && i < o.maxRetries
    ensures var t := Attempts(c, w, v, p, i, o);
      && |t.ran| <= o.maxRetries - i
      && 0.0 <= t.slept <= Pause(o.initialBackoff, o.maxRetries - 1) - Pause(o.initialBackoff, i)
    decreases o.maxRetries - i
  {
    PauseGrows(o.initialBackoff, i, o.maxRetries - 1);
    if i < o.maxRetries - 1 {
      AttemptsBounds(c, w, CallView(c, w, v, p.trials[i]), p, i + 1, o);
    }
  }

  lemma {:induction false} PauseGrows(initial: Time, i: nat, j: nat)
    requires initial >= 0.0 && i <= j
    ensures 0.0 <= Pause(initial, i) <= Pause(initial, j)
  {
    if i < j {
      PauseGrows(initial, i, j - 1);
    } else if i > 0 {
      PauseGrows(initial, i - 1, i - 1);
    }
  }

  lemma {:induction false} PauseIsPower(initial: Time, i: nat)
    ensures Pause(initial, i) == initial * Pow2(i)
  {
    if i > 0 {
      PauseIsPower(initial, i - 1);
    }
  }

  lemma {:induction false} PausesInAll(initial: Time, n: nat)
    ensures Pause(initial, n) - Pause(initial, 0) == initial * (Pow2(n) - 1.0)
  {
    PauseIsPower(initial, n);
    assert initial * Pow2(n) - initial == initial * (Pow2(n) - 1.0);
  }

  /** At most `max_retries` runs, and at most `initial * (2^(max_retries-1) - 1)` of sleep. */
  predicate Bounded(runs: nat, slept: Time, o: Options) {
    if o.maxRetries <= 0 then runs == 0 && slept == 0.0
    else runs <= o.maxRetries && 0.0 <= slept <= o.initialBackoff * (Pow2(o.maxRetries - 1) - 1.0)
  }

  lemma {:induction false} PausesAreBounded(runs: nat, slept: Time, o: Options)
    requires 0 < o.maxRetries && runs <= o.maxRetries
    requires 0.0 <= slept <= Pause(o.initialBackoff, o.maxRetries - 1) - Pause(o.initialBackoff, 0)
    ensures Bounded(runs, slept, o)
  {
    PausesInAll(o.initialBackoff, o.maxRetries - 1);
  }

  /** The operation runs at most `max_retries` times and the loop sleeps at most
      `initial * (2^(max_retries-1) - 1)` in all. */
  lemma {:induction false} RetriesAreBounded<R>(c: Config, w: Wiring, v: View, p: Plan<R>, o: Options)
    requires Covers(p, o) && o.initialBackoff >= 0.0
    ensures Bounded(|Attempts(c, w, v, p, 0, o).ran|, Attempts(c, w, v, p, 0, o).slept, o)
  {
    if o.maxRetries > 0 {
      var slept := AttemptsSleep(c, w, v, p, o);
      PausesAreBounded(|Attempts(c, w, v, p, 0, o).ran|, slept, o);
    }
  }

  lemma {:induction false} AttemptsSleep<R>(c: Config, w: Wiring, v: View, p: Plan<R>, o: Options) returns (slept: Time)
    requires Covers(p, o) && o.initialBackoff >= 0.0 && o.maxRetries > 0
    ensures slept == Attempts(c, w, v, p, 0, o).slept && |Attempts(c, w, v, p, 0, o).ran| <= o.maxRetries
    ensures 0.0 <= slept <= Pause(o.initialBackoff, o.maxRetries - 1) - Pause(o.initialBackoff, 0)
  {
    AttemptsBounds(c, w, v, p, 0, o);
    slept := Attempts(c, w, v, p, 0, o).slept;
  }

  /** The operation never runs on a breaker that is open and has not recovered. */
  lemma {:induction false} NeverRunsWhileOpen<R>(c: Config, w: Wiring, v: View, p: Plan<R>, i: nat, o: Options)
    requires Covers(p, o)
    ensures forall k :: 0 <= k < |Attempts(c, w, v, p, i, o).ran| ==>
      !OpenUnrecovered(c, Attempts(c, w, v, p, i, o).ran[k].loaded, Attempts(c, w, v, p, i, o).ran[k].at)
    decreases o.maxRetries - i
  {
    if i < o.maxRetries {
      NeverRunsWhileOpen(c, w, CallView(c, w, v, p.trials[i]), p, i + 1, o);
    }
  }

  /** The trace ends with a run of the operation in trial `k`, which answered `value`. */
  predicate AnsweredBy<R(==)>(p: Plan<R>, t: Trace<R>, value: R, k: nat) {
    && k < |p.trials|
    && p.trials[k].outcome == Answered(value)
    && t.ran != [] && t.ran[|t.ran| - 1].at == p.trials[k].start
  }

  /** A returned value is always an answer the operation gave, in its last run. */
  lemma {:induction false} ReturnsRealAnswers<R>(c: Config, w: Wiring, v: View, p: Plan<R>, i: nat, o: Options)
    requires Covers(p, o) && Attempts(c, w, v, p, i, o).reply.Returned?
    ensures exists k: nat :: AnsweredBy(p, Attempts(c, w, v, p, i, o), Attempts(c, w, v, p, i, o).reply.value, k)
    decreases o.maxRetries - i
  {
    if i < o.maxRetries {
      var t := p.trials[i];
      var trace := Attempts(c, w, v, p, i, o);
      if t.outcome.Answered? {
        assert AnsweredBy(p, trace, trace.reply.value, i);
      } else {
        var v1 := CallView(c, w, v, t);
        ReturnsRealAnswers(c, w, v1, p, i + 1, o);
        var rest := Attempts(c, w, v1, p, i + 1, o);
        var k: nat :| AnsweredBy(p, rest, rest.reply.value, k);
        assert AnsweredBy(p, trace, trace.reply.value, k);
      }
    }
  }

  // ----- which failures are retried -----

  /** The breaker's view after the first `k` calls. */
  function ViewAfter<R>(c: Config, w: Wiring, v: View, p: Plan<R>, k: nat): View
    requires k <= |p.trials|
  {
    if k == 0 then v else CallView(c, w, ViewAfter(c, w, v, p, k - 1), p.trials[k - 1])
  }

  predicate RunsAt<R>(c: Config, w: Wiring, v: View, p: Plan<R>, k: nat)
    requires k < |p.trials|
  {
    Invokes(c, w, ViewAfter(c, w, v, p, k), p.trials[k])
  }

  /** Trial `k` is let through and ends in a connection error. */
  predicate FailsAt<R>(c: Config, w: Wiring, v: View, p: Plan<R>, k: nat)
    requires k < |p.trials|
  {
    RunsAt(c, w, v, p, k) && p.trials[k].outcome.ConnectionFailed?
  }

  /** The first `k` trials all do. */
  predicate FailConnecting<R>(c: Config, w: Wiring, v: View, p: Plan<R>, k: nat)
    requires k <= |p.trials|
  {
    k == 0 || (FailConnecting(c, w, v, p, k - 1) && FailsAt(c, w, v, p, k - 1))
  }

  /** The first `n` sleeps together. */
  function Sleeps(initial: Time, n: nat): Time {
    if n == 0 then 0.0 else Sleeps(initial, n - 1) + Pause(initial, n - 1)
  }

  lemma {:induction false} SleepsInAll(initial: Time, n: nat)
    ensures Sleeps(initial, n) == initial * (Pow2(n) - 1.0)
  {
    if n > 0 {
      SleepsInAll(initial, n - 1);
      PauseIsPower(initial, n - 1);
      assert initial * (2.0 * Pow2(n - 1) - 1.0) == initial * (Pow2(n - 1) - 1.0) + initial * Pow2(n - 1);
    }
  }

  /** `all` is `rest` after `runs` runs and sleeps of `slept`. */
  predicate Precedes<R(==)>(all: Trace<R>, rest: Trace<R>, runs: nat, slept: Time) {
    && all.view == rest.view && all.reply == rest.reply
    && |all.ran| == runs + |rest.ran| && all.slept == slept + rest.slept
  }

  /** One connection error with attempts left: `step` is the loop before it, `rest` after it. */
  lemma {:induction false} OneConnectionError<R>(c: Config, w: Wiring, v: View, p: Plan<R>, i: nat, o: Options, step: Trace<R>)
      returns (rest: Trace<R>)
    requires Covers(p, o) && i < o.maxRetries - 1 && step == Attempts(c, w, v, p, i, o)
    requires Invokes(c, w, v, p.trials[i]) && p.trials[i].outcome.ConnectionFailed?
    ensures rest == Attempts(c, w, CallView(c, w, v, p.trials[i]), p, i + 1, o)
    ensures Precedes(step, rest, 1, Pause(o.initialBackoff, i))
  {
    rest := Attempts(c, w, CallView(c, w, v, p.trials[i]), p, i + 1, o);
  }

  lemma {:induction false} PrecedesOn<R>(all: Trace<R>, step: Trace<R>, rest: Trace<R>, initial: Time, k: nat)
    requires Precedes(all, step, k, Sleeps(initial, k)) && Precedes(step, rest, 1, Pause(initial, k))
    ensures Precedes(all, rest, k + 1, Sleeps(initial, k + 1))
  {
  }

  /** `k` connection errors behind, with an attempt left: the loop from there is `rest`. */
  lemma {:induction false} AfterConnectionErrors<R>(c: Config, w: Wiring, v: View, p: Plan<R>, k: nat, o: Options, all: Trace<R>)
      returns (view: View, rest: Trace<R>)
    requires Covers(p, o) && k < o.maxRetries && FailConnecting(c, w, v, p, k) && all == Attempts(c, w, v, p, 0, o)
    ensures view == ViewAfter(c, w, v, p, k) && rest == Attempts(c, w, view, p, k, o)
    ensures Precedes(all, rest, k, Sleeps(o.initialBackoff, k))
  {
    if k == 0 {
      view, rest := v, all;
    } else {
      var before, step := AfterConnectionErrors(c, w, v, p, k - 1, o, all);
      rest := OneConnectionError(c, w, before, p, k - 1, o, step);
      view := CallView(c, w, before, p.trials[k - 1]);
      PrecedesOn(all, step, rest, o.initialBackoff, k - 1);
    }
  }

  /** What one trial that is refused, or ends otherwise than in a connection error, makes of a
      loop: `runs` runs and sleeps of `slept` are behind. */
  predicate SettledBy<R(==)>(c: Config, t: Trace<R>, trial: Trial<R>, runsNow: bool, runs: nat, slept: Time, o: Options) {
    && |t.ran| == (if runsNow then runs + 1 else runs) && t.slept == slept
    && (!runsNow ==> t.reply == if o.hasFallback then FellBack else Raised(CircuitOpen))
    && (runsNow ==> match trial.outcome
          case Answered(x) => t.reply == Returned(x)
          case OtherFailed => t.reply == Raised(OtherFailure)
          case ResponseFailed =>
            if o.fallbackOnError && o.hasFallback
            then t.reply == FellBack && t.view.local == CircuitState(Open, c.threshold, trial.finish, trial.finish)
            else t.reply == Raised(ResponseFailure)
          case ConnectionFailed => false)
  }

  lemma {:induction false} OneOtherOutcome<R>(c: Config, w: Wiring, v: View, p: Plan<R>, i: nat, o: Options, t: Trace<R>)
    requires Covers(p, o) && i < o.maxRetries && t == Attempts(c, w, v, p, i, o)
    requires Invokes(c, w, v, p.trials[i]) ==> !p.trials[i].outcome.ConnectionFailed?
    ensures SettledBy(c, t, p.trials[i], Invokes(c, w, v, p.trials[i]), 0, 0.0, o)
  {
  }

  /** After `k` connection errors the first trial that is refused, or ends otherwise, settles
      the loop: its answer or error is the reply, and no other trial follows it. */
  lemma {:induction false} OtherOutcomesSettle<R>(c: Config, w: Wiring, v: View, p: Plan<R>, k: nat, o: Options)
    requires Covers(p, o) && k < o.maxRetries && FailConnecting(c, w, v, p, k)
    requires !FailsAt(c, w, v, p, k)
    ensures SettledBy(c, Attempts(c, w, v, p, 0, o), p.trials[k], RunsAt(c, w, v, p, k), k, Sleeps(o.initialBackoff, k), o)
  {
    var all := Attempts(c, w, v, p, 0, o);
    var view, rest := AfterConnectionErrors(c, w, v, p, k, o, all);
    OneOtherOutcome(c, w, view, p, k, o, rest);
    SettlesAfter(c, all, rest, p.trials[k], RunsAt(c, w, v, p, k), k, Sleeps(o.initialBackoff, k), o);
  }

  lemma {:induction false} SettlesAfter<R>(c: Config, all: Trace<R>, rest: Trace<R>, trial: Trial<R>, runsNow: bool,
                                          runs: nat, slept: Time, o: Options)
    requires Precedes(all, rest, runs, slept) && SettledBy(c, rest, trial, runsNow, 0, 0.0, o)
    ensures SettledBy(c, all, trial, runsNow, runs, slept, o)
  {
  }

  /** The breaker is shown as open: its record is, or the "redis" breaker's store is out of use. */
  predicate ShowsOpen(w: Wiring, v: View, now: Time) {
    v.local.phase.Open? || (w.isRedis && now < v.disabledUntil && v.local.phase.Closed?)
  }

  /** The loop has made its last attempt and looked at the breaker. */
  predicate ExhaustedBy<R(==)>(w: Wiring, t: Trace<R>, seen: View, at: Time, runs: nat, slept: Time, o: Options, failure: Failure) {
    && |t.ran| == runs && t.slept == slept && t.view == seen
    && t.reply == if ShowsOpen(w, seen, at) && o.hasFallback then FellBack else Raised(failure)
  }

  lemma {:induction false} LastConnectionError<R>(c: Config, w: Wiring, v: View, p: Plan<R>, i: nat, o: Options, t: Trace<R>, seen: View)
    requires Covers(p, o) && i == o.maxRetries - 1 && t == Attempts(c, w, v, p, i, o)
    requires Invokes(c, w, v, p.trials[i]) && p.trials[i].outcome.ConnectionFailed?
    requires seen == Observe(c, w, CallView(c, w, v, p.trials[i]), p.endAt, p.endIo)
    ensures ExhaustedBy(w, t, seen, p.endAt, 1, 0.0, o, ConnectionFailure)
  {
  }

  lemma {:induction false} ExhaustsAfter<R>(w: Wiring, all: Trace<R>, rest: Trace<R>, seen: View, at: Time,
                                           runs: nat, slept: Time, o: Options, failure: Failure)
    requires Precedes(all, rest, runs, slept) && ExhaustedBy(w, rest, seen, at, 1, 0.0, o, failure)
    ensures ExhaustedBy(w, all, seen, at, runs + 1, slept, o, failure)
  {
  }

  /** If every attempt ends in a connection error the loop runs and sleeps its full measure, and
      replies the fallback exactly when there is one and the breaker then shows open, else the
      connection error. */
  lemma {:induction false} OnlyConnectionErrorsExhaust<R>(c: Config, w: Wiring, v: View, p: Plan<R>, o: Options, seen: View)
    requires Covers(p, o) && o.maxRetries > 0 && FailConnecting(c, w, v, p, o.maxRetries)
    requires seen == Observe(c, w, ViewAfter(c, w, v, p, o.maxRetries), p.endAt, p.endIo)
    ensures ExhaustedBy(w, Attempts(c, w, v, p, 0, o), seen, p.endAt, o.maxRetries, Sleeps(o.initialBackoff, o.maxRetries - 1), o, ConnectionFailure)
  {
    var k, all := o.maxRetries - 1, Attempts(c, w, v, p, 0, o);
    var view, rest := AfterConnectionErrors(c, w, v, p, k, o, all);
    LastConnectionError(c, w, view, p, k, o, rest, seen);
    ExhaustsAfter(w, all, rest, seen, p.endAt, k, Sleeps(o.initialBackoff, k), o, ConnectionFailure);
  }

  /** Without a single attempt the loop reports that it has no result, or falls back likewise. */
  lemma {:induction false} NoAttempts<R>(c: Config, w: Wiring, v: View, p: Plan<R>, o: Options)
    requires o.maxRetries <= 0
    ensures ExhaustedBy(w, Attempts(c, w, v, p, 0, o), Observe(c, w, v, p.endAt, p.endIo), p.endAt, 0, 0.0, o, NoResult)
  {
  }

  function After<R>(ran: seq<Invocation>, slept: Time, rest: Trace<R>): Trace<R> {
    Trace(rest.view, rest.reply, ran + rest.ran, slept + rest.slept)
  }

  /** The whole trace, seen from before attempt `i`, or after the last one has failed. */
  predicate Ahead<R(==)>(c: Config, w: Wiring, v: View, p: Plan<R>, i: nat, failed: bool, o: Options,
                         ran: seq<Invocation>, slept: Time, all: Trace<R>)
    requires Covers(p, o)
  {
    all == After(ran, slept, if failed then Finished(c, w, v, p, true, o) else Attempts(c, w, v, p, i, o))
  }

  /** An attempt that ends in a connection error moves the loop on, or ends it. */
  lemma {:induction false} MovesOn<R>(c: Config, w: Wiring, v: View, p: Plan<R>, i: nat, o: Options,
                                      ran: seq<Invocation>, slept: Time, all: Trace<R>)
    requires Covers(p, o) && i < o.maxRetries && Ahead(c, w, v, p, i, false, o, ran, slept, all)
    requires CallReply(c, w, v, p.trials[i], o.hasFallback) == Raised(ConnectionFailure)
    ensures var v1, ran1 := CallView(c, w, v, p.trials[i]), ran + Invocations(c, w, v, p.trials[i]);
      if i == o.maxRetries - 1 then Ahead(c, w, v1, p, i, true, o, ran1, slept, all)
      else Ahead(c, w, v1, p, i + 1, false, o, ran1, slept + Pause(o.initialBackoff, i), all)
  {
    var v1 := CallView(c, w, v, p.trials[i]);
    if i < o.maxRetries - 1 {
      var rest := Attempts(c, w, v1, p, i + 1, o);
      assert ran + (Invocations(c, w, v, p.trials[i]) + rest.ran) == ran + Invocations(c, w, v, p.trials[i]) + rest.ran;
    }
  }

  /** An attempt that ends the loop with a reply. */
  lemma {:induction false} Settled<R>(c: Config, w: Wiring, v: View, p: Plan<R>, i: nat, o: Options,
                                      ran: seq<Invocation>, slept: Time, all: Trace<R>)
    requires Covers(p, o) && i < o.maxRetries && Ahead(c, w, v, p, i, false, o, ran, slept, all)
    requires CallReply(c, w, v, p.trials[i], o.hasFallback) != Raised(ConnectionFailure)
    ensures var t := p.trials[i];
      var reply := CallReply(c, w, v, t, o.hasFallback);
      var forced := reply == Raised(ResponseFailure) && o.fallbackOnError && o.hasFallback;
      var v1 := CallView(c, w, v, t);
      all == Trace(if forced then ForceOpen(c, w, v1, t.finish, p.forceIo) else v1,
                   if forced then FellBack else reply, ran + Invocations(c, w, v, t), slept)
  {
  }

  /** A response error may open the breaker by force and fall back; any other reply stands. */
  method FallBackOnError<R(==)>(breaker: CircuitBreaker, reply: Reply<R>, at: Time, p: Plan<R>, o: Options) returns (settled: Reply<R>)
    modifies breaker.Footprint()
    ensures breaker.localState == old(breaker.localState) || fresh(breaker.localState)
    ensures var forced := reply == Raised(ResponseFailure) && o.fallbackOnError && o.hasFallback;
      && settled == (if forced then FellBack else reply)
      && breaker.Look() == if forced then ForceOpen(breaker.config, breaker.Wired(), old(breaker.Look()), at, p.forceIo)
                           else old(breaker.Look())
  {
    settled := reply;
    if reply == Raised(ResponseFailure) && o.fallbackOnError && o.hasFallback {
      breaker.ForceOpenNow(at, p.forceIo);
      settled := FellBack;
    }
  }

  /** What follows the loop: an open breaker falls back, any other reports the last error. */
  method ReportFailure<R(==)>(breaker: CircuitBreaker, p: Plan<R>, failed: bool, o: Options) returns (reply: Reply<R>)
    modifies breaker.Footprint()
    ensures breaker.localState == old(breaker.localState) || fresh(breaker.localState)
    ensures Trace(breaker.Look(), reply, [], 0.0) == Finished(breaker.config, breaker.Wired(), old(breaker.Look()), p, failed, o)
  {
    var phase := breaker.CurrentState(p.endAt, p.endIo);
    if phase == Open && o.hasFallback {
      reply := FellBack;
    } else if failed {
      reply := Raised(ConnectionFailure);
    } else {
      reply := Raised(NoResult);
    }
  }

  /** The loop itself, over a breaker object. */
  method WithRetries<R(==)>(breaker: CircuitBreaker, p: Plan<R>, o: Options)
      returns (reply: Reply<R>, slept: Time, ghost ran: seq<Invocation>)
    requires Covers(p, o)
    modifies breaker.Footprint()
    ensures breaker.localState == old(breaker.localState) || fresh(breaker.localState)
    ensures Trace(breaker.Look(), reply, ran, slept)
         == Attempts(breaker.config, breaker.Wired(), old(breaker.Look()), p, 0, o)
  {
    ghost var c, w, view := breaker.config, breaker.Wired(), breaker.Look();
    ghost var all := Attempts(c, w, view, p, 0, o);
    var failed := false;
    slept, ran := 0.0, [];
    var attempt := 0;
    while attempt < o.maxRetries && !failed
      invariant 0 <= attempt && (failed ==> attempt < o.maxRetries)
      invariant breaker.localState == old(breaker.localState) || fresh(breaker.localState)
      invariant view == breaker.Look()
      invariant Ahead(c, w, view, p, attempt, failed, o, ran, slept, all)
      decreases o.maxRetries - attempt, !failed
    {
      var t := p.trials[attempt];
      ghost var seen := view;
      var invoked;
      reply, invoked := breaker.CallSync(t, o.hasFallback);
      view := breaker.Look();
      if reply != Raised(ConnectionFailure) {
        Settled(c, w, seen, p, attempt, o, ran, slept, all);
        ran := ran + Invocations(c, w, seen, t);
        reply := FallBackOnError(breaker, reply, t.finish, p, o);
        return;
      }
      MovesOn(c, w, seen, p, attempt, o, ran, slept, all);
      ran := ran + Invocations(c, w, seen, t);
      if attempt == o.maxRetries - 1 {
        failed := true;
      } else {
        slept := slept + Pause(o.initialBackoff, attempt);
        attempt := attempt + 1;
      }
    }
    reply := ReportFailure(breaker, p, failed, o);
  }
}
