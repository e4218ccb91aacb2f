/** Runs of one process's breaker in which calls overlap: a call passes the gate at one time
    and is recorded at another, with anything in between. */
module CircuitOverlap {
  import Breaker
  import CircuitRuns
  import opened Wrappers
  import opened CircuitSpec

  type CallId = nat

  datatype Event =
    /** A call at the gate, identified by `call` while it runs. */
    | Gate(call: CallId, at: Time)
    /** The end of a running call. */
    | Succeed(call: CallId, at: Time)
    | Fail(call: CallId, at: Time)
    | External(at: Time)
    | Force(at: Time)

  /** `running`: the calls that passed the gate and are not recorded yet. */
  datatype System = System(state: CircuitState, running: set<CallId>)

  function Next(c: Config, sys: System, e: Event): System {
    match e
    case Gate(call, at) =>
      var seen := Coerced(c, sys.state, at);
      System(seen, if seen.phase.Open? then sys.running else sys.running + {call})
    case Succeed(call, _) =>
      if call in sys.running then System(AfterSuccess(sys.state), sys.running - {call}) else sys
    case Fail(call, at) =>
      if call in sys.running then System(AfterFailure(c, sys.state, at), sys.running - {call}) else sys
    case External(at) => if sys.state.phase.Open? then sys else sys.(state := AfterFailure(c, sys.state, at))
    case Force(at) => sys.(state := Tripped(c, at))
  }

  function Play(c: Config, sys: System, es: seq<Event>): System
    decreases |es|
  {
    if es == [] then sys else Play(c, Next(c, sys, es[0]), es[1..])
  }

  // ----- the same breaker -----

  /** A call recorded right after it passed the gate is a call of the runs without overlap. */
  lemma {:induction false} AdjacentIsOneCall(c: Config, sys: System, call: CallId, start: Time, finish: Time, ok: bool)
    requires call !in sys.running
    ensures var end := if ok then Succeed(call, finish) else Fail(call, finish);
      Play(c, sys, [Gate(call, start), end])
        == System(CircuitRuns.Step(c, sys.state, CircuitRuns.Call(start, finish, ok)).0, sys.running)
  {
    var end := if ok then Succeed(call, finish) else Fail(call, finish);
    var es := [Gate(call, start), end];
    var mid := Next(c, sys, es[0]);
    assert es[1..] == [end] && [end][1..] == [];
    assert Play(c, sys, es) == Play(c, mid, [end]) == Play(c, Next(c, mid, end), []);
    assert (sys.running + {call}) - {call} == sys.running;
  }

  function MovedView(c: Config, w: Wiring, v: View, e: Event, io: Io): View {
    match e
    case Gate(_, at) => Observe(c, w, v, at, io)
    case Succeed(_, at) => RecordSuccess(w, v, at, io)
    case Fail(_, at) => RecordFailure(c, w, v, at, io)
    case External(at) => CircuitSpec.ExternalFailure(c, w, v, at, io)
    case Force(at) => ForceOpen(c, w, v, at, io)
  }

  /** The methods of the breaker object move its record as these events do, when no one else
      writes the record and a recorded call is running. */
  lemma {:induction false} MovedViewFollows(c: Config, w: Wiring, v: View, running: set<CallId>, e: Event, io: Io)
    requires CircuitRuns.SoleWriter(w, v, io) && e.at > 0.0
    requires e.Succeed? || e.Fail? ==> e.call in running
    ensures var v' := MovedView(c, w, v, e, io);
      v'.local == Next(c, System(v.local, running), e).state && CircuitRuns.SoleWriter(w, v', io)
  {
  }

  function MovesView(c: Config, w: Wiring, v: View, es: seq<Event>, io: nat -> Io): View {
    if es == [] then v else MovedView(c, w, MovesView(c, w, v, es[..|es| - 1], io), es[|es| - 1], io(|es| - 1))
  }

  /** The "redis" breaker never touches a store, so its gate goes by the record alone: the
      guards on a disabled store never take effect. */
  lemma {:induction false} RedisGoesByRecord(c: Config, hasStore: bool, es: seq<Event>, io: nat -> Io, now: Time)
    requires now >= 0.0
    ensures var v := MovesView(c, Wiring(true, hasStore), CircuitSpec.BOOTED, es, io);
      && v.stored == None && v.disabledUntil == 0.0
      && (Admits(Wiring(true, hasStore), v, now) <==> v.local.phase != Open)
  {
    if es != [] {
      RedisGoesByRecord(c, hasStore, es[..|es| - 1], io, now);
    }
  }

  // ----- an open breaker before its recovery timeout -----

  /** Open since a failure or a force, with a failure window. */
  predicate Opened(c: Config, s: CircuitState) {
    s.phase.Open? && s.failureCount >= c.threshold && s.windowStartedAt > 0.0 && s.openedAt > 0.0
  }

  /** All events in time order before the recovery timeout of the opening at `openedAt`. */
  predicate BeforeRecovery(c: Config, es: seq<Event>, openedAt: Time) {
    && (forall i :: 0 <= i < |es| ==> openedAt <= es[i].at < openedAt + c.recovery && es[i].at > 0.0)
    && (forall i, j :: 0 <= i < j < |es| ==> es[i].at <= es[j].at)
  }

  predicate Ends(e: Event, call: CallId) {
    (e.Succeed? || e.Fail?) && e.call == call
  }

  /** Event `k` is the end of a call of `running`. */
  predicate EndsRunning(es: seq<Event>, running: set<CallId>, k: nat) {
    && k < |es| && (es[k].Succeed? || es[k].Fail?) && es[k].call in running
    && forall j :: 0 <= j < k ==> !Ends(es[j], es[k].call)
  }

  /** When the failure window began, after the forced openings in `es`. */
  function WindowBegan(es: seq<Event>, began: Time): Time
    decreases |es|
  {
    if es == [] then began else WindowBegan(es[1..], if es[0].Force? then es[0].at else began)
  }

  /** Event `k` takes an open breaker, opened with a window begun at `began`, out of open. */
  predicate Closes(c: Config, es: seq<Event>, running: set<CallId>, began: Time, k: nat) {
    && EndsRunning(es, running, k)
    && (es[k].Succeed? || (c.threshold > 1 && es[k].at - WindowBegan(es[..k], began) > c.window))
  }

  ghost predicate StaysOpen(c: Config, sys: System, es: seq<Event>) {
    forall k :: 0 <= k <= |es| ==> Play(c, sys, es[..k]).state.phase.Open?
  }

  /** One event: what it does to an opened breaker whose timeout has not passed. */
  lemma {:induction false} NextOnOpened(c: Config, sys: System, e: Event)
    requires c.Sane() && Opened(c, sys.state) && e.at > 0.0 && e.at < sys.state.openedAt + c.recovery
    ensures var next := Next(c, sys, e);
      if Closes(c, [e], sys.running, sys.state.windowStartedAt, 0) then
        next.state == if e.Succeed? then FRESH else CircuitState(Closed, 1, e.at, sys.state.openedAt)
      else
        && Opened(c, next.state)
        && (next.state.openedAt == sys.state.openedAt || next.state.openedAt == e.at)
        && (c.threshold > 1 ==> next.state.windowStartedAt == WindowBegan([e], sys.state.windowStartedAt))
        && next.running == if e.Succeed? || e.Fail? then sys.running - {e.call} else sys.running
  {
    assert [e][..0] == [] && [e][1..] == [];
  }

  lemma {:induction false} ClosesLater(c: Config, es: seq<Event>, running: set<CallId>, began: Time, k: nat)
    requires 0 < k < |es|
    ensures Closes(c, es, running, began, k) <==>
      Closes(c, es[1..], if es[0].Succeed? || es[0].Fail? then running - {es[0].call} else running,
             WindowBegan([es[0]], began), k - 1)
  {
    var rest := es[1..];
    assert [es[0]][1..] == [];
    assert es[..k][1..] == rest[..k - 1];
    assert forall j :: 0 <= j < k - 1 ==> rest[j] == es[j + 1];
    if (es[k].Succeed? || es[k].Fail?) && forall j :: 0 <= j < k - 1 ==> !Ends(rest[j], es[k].call) {
      forall j | 0 < j < k ensures !Ends(es[j], es[k].call) {
        assert es[j] == rest[j - 1];
      }
    }
  }

  lemma {:induction false} StaysOpenUnrolls(c: Config, sys: System, es: seq<Event>)
    requires es != []
    ensures StaysOpen(c, sys, es) <==> sys.state.phase.Open? && StaysOpen(c, Next(c, sys, es[0]), es[1..])
  {
    var next := Next(c, sys, es[0]);
    forall k | 0 <= k < |es| ensures Play(c, sys, es[..k + 1]) == Play(c, next, es[1..][..k]) {
      assert es[..k + 1][1..] == es[1..][..k];
    }
    assert es[..0] == [] && Play(c, sys, []) == sys;
    if StaysOpen(c, next, es[1..]) && sys.state.phase.Open? {
      forall k | 0 <= k <= |es| ensures Play(c, sys, es[..k]).state.phase.Open? {
        if k > 0 {
          assert Play(c, sys, es[..k - 1 + 1]) == Play(c, next, es[1..][..k - 1]);
        }
      }
    }
    if StaysOpen(c, sys, es) {
      forall k | 0 <= k <= |es[1..]| ensures Play(c, next, es[1..][..k]).state.phase.Open? {
        assert Play(c, sys, es[..k + 1]).state.phase.Open?;
      }
    }
  }

  lemma {:induction false} OpenedStaysOpenIff(c: Config, sys: System, es: seq<Event>)
    requires c.Sane() && Opened(c, sys.state) && BeforeRecovery(c, es, sys.state.openedAt)
    ensures StaysOpen(c, sys, es) <==>
      forall k: nat :: k < |es| ==> !Closes(c, es, sys.running, sys.state.windowStartedAt, k)
    decreases |es|
  {
    if es == [] {
      assert es[..0] == [] && Play(c, sys, []) == sys;
    } else {
      OpenedStaysOpenFrom(c, sys, es);
    }
  }

  lemma {:induction false} OpenedStaysOpenFrom(c: Config, sys: System, es: seq<Event>)
    requires es != [] && c.Sane() && Opened(c, sys.state) && BeforeRecovery(c, es, sys.state.openedAt)
    ensures StaysOpen(c, sys, es) <==>
      forall k: nat :: k < |es| ==> !Closes(c, es, sys.running, sys.state.windowStartedAt, k)
    decreases |es|, 0
  {
    var next, began := Next(c, sys, es[0]), sys.state.windowStartedAt;
    NextOnOpened(c, sys, es[0]);
    StaysOpenUnrolls(c, sys, es);
    assert Closes(c, es, sys.running, began, 0) <==> Closes(c, [es[0]], sys.running, began, 0) by {
      assert es[..0] == [es[0]][..0];
    }
    if Closes(c, es, sys.running, began, 0) {
      assert es[1..][..0] == [] && Play(c, next, []) == next;
      assert !StaysOpen(c, next, es[1..]);
    } else {
      OpenedStaysOpenIff(c, next, es[1..]);
      forall k: nat | 0 < k < |es|
        ensures Closes(c, es, sys.running, began, k) <==> Closes(c, es[1..], next.running, next.state.windowStartedAt, k - 1)
      {
        ClosesLater(c, es, sys.running, began, k);
      }
      if forall k: nat :: k < |es| ==> !Closes(c, es, sys.running, began, k) {
        forall k: nat | k < |es[1..]| ensures !Closes(c, es[1..], next.running, next.state.windowStartedAt, k) {
          assert !Closes(c, es, sys.running, began, k + 1);
        }
      }
    }
  }

  // ----- every open state of a run is of that kind -----

  const BOOTED := System(FRESH, {})

  predicate Positive(es: seq<Event>) {
    forall i :: 0 <= i < |es| ==> es[i].at > 0.0
  }

  predicate Plausible(c: Config, s: CircuitState) {
    s.windowStartedAt >= 0.0 && (s.phase.Open? ==> Opened(c, s))
  }

  lemma {:induction false} RunsArePlausible(c: Config, sys: System, es: seq<Event>)
    requires c.Sane() && Plausible(c, sys.state) && Positive(es)
    ensures Plausible(c, Play(c, sys, es).state)
    decreases |es|
  {
    if es != [] {
      assert es[0].at > 0.0;
      RunsArePlausible(c, Next(c, sys, es[0]), es[1..]);
    }
  }

  /** In every reachable open state, whatever overlaps: the breaker stays open through a run
      before its recovery timeout if and only if no call that was running when it opened
      succeeds in that run, or, with a threshold above one, fails after the failure window. */
  lemma {:induction false} StaysOpenIff(c: Config, before: seq<Event>, sys: System, es: seq<Event>)
    requires c.Sane() && Positive(before) && sys == Play(c, BOOTED, before) && sys.state.phase.Open?
    requires BeforeRecovery(c, es, sys.state.openedAt)
    ensures StaysOpen(c, sys, es) <==>
      forall k: nat :: k < |es| ==> !Closes(c, es, sys.running, sys.state.windowStartedAt, k)
  {
    RunsArePlausible(c, BOOTED, before);
    OpenedStaysOpenIff(c, sys, es);
  }

  /** So an open breaker is certain to stay open until its recovery timeout if and only if no
      call was running when it opened. */
  lemma {:induction false} OpenIsSafeIff(c: Config, before: seq<Event>, sys: System)
    requires c.Sane() && Positive(before) && sys == Play(c, BOOTED, before) && sys.state.phase.Open?
    ensures (forall es :: BeforeRecovery(c, es, sys.state.openedAt) ==> StaysOpen(c, sys, es)) <==> sys.running == {}
  {
    RunsArePlausible(c, BOOTED, before);
    if sys.running == {} {
      forall es | BeforeRecovery(c, es, sys.state.openedAt) ensures StaysOpen(c, sys, es) {
        OpenedStaysOpenIff(c, sys, es);
      }
    } else {
      var call :| call in sys.running;
      var es := [Succeed(call, sys.state.openedAt)];
      assert BeforeRecovery(c, es, sys.state.openedAt);
      assert Closes(c, es, sys.running, sys.state.windowStartedAt, 0);
      OpenedStaysOpenIff(c, sys, es);
    }
  }

  // ----- both endings are reached -----

  function Calls(n: nat): (calls: set<CallId>)
    ensures forall call: CallId :: call in calls <==> call < n
  {
    if n == 0 then {} else Calls(n - 1) + {n - 1}
  }

  /** Calls 0 to `n - 1` at the gate. */
  function Gates(at: Time, n: nat): seq<Event> {
    if n == 0 then [] else Gates(at, n - 1) + [Gate(n - 1, at)]
  }

  /** Calls 1 to `n` failing. */
  function Fails(at: Time, n: nat): seq<Event> {
    if n == 0 then [] else Fails(at, n - 1) + [Fail(n, at)]
  }

  lemma {:induction false} PlayAppend(c: Config, sys: System, es: seq<Event>, e: Event)
    ensures Play(c, sys, es + [e]) == Next(c, Play(c, sys, es), e)
    decreases |es|
  {
    if es == [] {
      assert [] + [e] == [e] && [e][1..] == [];
      assert Play(c, sys, [e]) == Play(c, Next(c, sys, e), []);
    } else {
      assert (es + [e])[1..] == es[1..] + [e];
      PlayAppend(c, Next(c, sys, es[0]), es[1..], e);
    }
  }

  lemma {:induction false} PlayJoins(c: Config, sys: System, a: seq<Event>, b: seq<Event>)
    ensures Play(c, sys, a + b) == Play(c, Play(c, sys, a), b)
    decreases |a|
  {
    if a == [] {
      assert a + b == b;
    } else {
      assert (a + b)[1..] == a[1..] + b;
      PlayJoins(c, Next(c, sys, a[0]), a[1..], b);
    }
  }

  lemma {:induction false} GatesRun(c: Config, at: Time, n: nat)
    ensures Play(c, BOOTED, Gates(at, n)) == System(FRESH, Calls(n))
  {
    if n == 0 {
      assert Calls(0) == {};
    } else {
      GatesRun(c, at, n - 1);
      PlayAppend(c, BOOTED, Gates(at, n - 1), Gate(n - 1, at));
      assert Calls(n) == Calls(n - 1) + {n - 1};
    }
  }

  lemma {:induction false} FailsRun(c: Config, at: Time, n: nat)
    requires c.Sane() && at > 0.0 && n <= c.threshold
    ensures var end := Play(c, System(FRESH, Calls(c.threshold + 1)), Fails(at, n));
      && end.running == Calls(c.threshold + 1) - (Calls(n + 1) - {0})
      && end.state == if n == 0 then FRESH
                      else if n < c.threshold then CircuitState(Closed, n, at, 0.0)
                      else CircuitState(Open, n, at, at)
  {
    if n == 0 {
      assert Calls(1) == {0};
    } else {
      FailsRun(c, at, n - 1);
      PlayAppend(c, System(FRESH, Calls(c.threshold + 1)), Fails(at, n - 1), Fail(n, at));
      assert Calls(n + 1) == Calls(n) + {n};
    }
  }

  /** Call 0 passes the gate, and the breaker opens on others while it runs. */
  function OpenedMeanwhile(c: Config, at: Time): seq<Event>
    requires c.Sane()
  {
    Gates(at, c.threshold + 1) + Fails(at, c.threshold)
  }

  lemma {:induction false} OpensMeanwhile(c: Config, at: Time)
    requires c.Sane() && at > 0.0
    ensures Play(c, BOOTED, OpenedMeanwhile(c, at)) == System(CircuitState(Open, c.threshold, at, at), {0})
  {
    var T := c.threshold;
    GatesRun(c, at, T + 1);
    FailsRun(c, at, T);
    PlayJoins(c, BOOTED, Gates(at, T + 1), Fails(at, T));
    assert Calls(T + 1) - (Calls(T + 1) - {0}) == {0};
  }

  /** In every configuration a call admitted earlier closes the open breaker when it succeeds,
      at any time, and also when it fails once the window is over, with a threshold above one. */
  lemma {:induction false} OverlapClosesOpenBreaker(c: Config, at: Time, late: Time)
    requires c.Sane() && at > 0.0 && late >= at
    ensures var run := OpenedMeanwhile(c, at);
      && Play(c, BOOTED, run).state.phase.Open? && Play(c, BOOTED, run).state.openedAt == at
      && Play(c, BOOTED, run + [Succeed(0, late)]) == System(FRESH, {})
      && (c.threshold > 1 && late - at > c.window ==>
            Play(c, BOOTED, run + [Fail(0, late)]) == System(CircuitState(Closed, 1, late, at), {}))
  {
    OpensMeanwhile(c, at);
    PlayAppend(c, BOOTED, OpenedMeanwhile(c, at), Succeed(0, late));
    PlayAppend(c, BOOTED, OpenedMeanwhile(c, at), Fail(0, late));
  }
}
