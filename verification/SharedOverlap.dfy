/** Several processes whose calls overlap, over one shared breaker record: how long an opening
    that one of them has stored lasts when the others go on calling and writing. */
module SharedOverlap {
  import opened Wrappers
  import opened CircuitSpec
  import opened SharedBreaker

  type CallId = nat

  datatype Event =
    | Look(pid: Pid, at: Time)
    /** A call at the gate of its process, identified by `call` while it runs. */
    | Call(pid: Pid, call: CallId, at: Time)
    | Succeeds(pid: Pid, call: CallId, at: Time)
    | Fails(pid: Pid, call: CallId, at: Time)
    /** An external failure is reported. */
    | Reports(pid: Pid, at: Time)
    | Forces(pid: Pid, at: Time)

  /** `running`: the calls that passed a gate and are not recorded yet. */
  datatype Shared = Shared(sys: System, running: set<(Pid, CallId)>)

  const STARTED := Shared(System(map[], None), {})

  /** The breaker's method behind an event; the store answers. */
  function MoveOf(e: Event): Move {
    var action :=
      match e
      case Look(_, _) => Action.Gate
      case Call(_, _, _) => Action.Gate
      case Succeeds(_, _, _) => Action.Succeed
      case Fails(_, _, _) => Action.Fail
      case Reports(_, _) => Action.External
      case Forces(_, _) => Action.Trip;
    Move(e.pid, action, e.at, Io(true, true))
  }

  function Next(c: Config, s: Shared, e: Event): Shared {
    var moved := Apply(c, s.sys, MoveOf(e));
    match e
    case Look(_, _) => s.(sys := moved)
    case Call(p, call, at) =>
      Shared(moved, if Admits(SHARED, ViewOf(moved, p), at) then s.running + {(p, call)} else s.running)
    case Succeeds(p, call, _) => if (p, call) in s.running then Shared(moved, s.running - {(p, call)}) else s
    case Fails(p, call, _) => if (p, call) in s.running then Shared(moved, s.running - {(p, call)}) else s
    case Reports(_, _) => s.(sys := moved)
    case Forces(_, _) => s.(sys := moved)
  }

  function Run(c: Config, s: Shared, es: seq<Event>): Shared
    decreases |es|
  {
    if es == [] then s else Run(c, Next(c, s, es[0]), es[1..])
  }

  predicate InOrder(es: seq<Event>) {
    forall i, j :: 0 <= i < j < |es| ==> es[i].at <= es[j].at
  }

  // ----- which calls are running -----

  /** Event `k` lets call `x` through its process's gate. */
  predicate LetIn(c: Config, s: Shared, es: seq<Event>, k: nat, x: (Pid, CallId)) {
    && k < |es| && es[k].Call? && (es[k].pid, es[k].call) == x
    && !Rejects(c, Run(c, s, es[..k]).sys, x.0, es[k].at, Io(true, true))
  }

  /** Call `x` does not end from event `k` on. */
  predicate NotEnded(es: seq<Event>, k: nat, x: (Pid, CallId)) {
    forall j :: k <= j < |es| && (es[j].Succeeds? || es[j].Fails?) ==> (es[j].pid, es[j].call) != x
  }

  ghost predicate LetInLast(c: Config, s: Shared, es: seq<Event>, x: (Pid, CallId)) {
    exists k: nat :: LetIn(c, s, es, k, x) && NotEnded(es, k + 1, x)
  }

  lemma {:induction false} LetInLater(c: Config, s: Shared, es: seq<Event>, x: (Pid, CallId), k: nat)
    requires es != []
    ensures LetIn(c, s, es, k + 1, x) <==> LetIn(c, Next(c, s, es[0]), es[1..], k, x)
    ensures NotEnded(es, k + 1, x) <==> NotEnded(es[1..], k, x)
  {
    var rest := es[1..];
    if k < |rest| {
      assert es[..k + 1][0] == es[0] && es[..k + 1][1..] == rest[..k];
    }
    assert forall j :: 1 <= j < |es| ==> es[j] == rest[j - 1];
    if NotEnded(es, k + 1, x) {
      forall j | k <= j < |rest| && (rest[j].Succeeds? || rest[j].Fails?) ensures (rest[j].pid, rest[j].call) != x {
        assert rest[j] == es[j + 1];
      }
    }
  }

  /** Running are exactly the calls that were running before or have been let through since, and
      have not ended. */
  lemma {:induction false} RunningAreLetIn(c: Config, s: Shared, es: seq<Event>, x: (Pid, CallId))
    ensures x in Run(c, s, es).running <==> LetInLast(c, s, es, x) || (x in s.running && NotEnded(es, 0, x))
    decreases |es|
  {
    if es != [] {
      var s1, rest := Next(c, s, es[0]), es[1..];
      RunningAreLetIn(c, s1, rest, x);
      LetInLater(c, s, es, x, 0);
      assert es[..0] == [];
      if LetInLast(c, s1, rest, x) {
        var k: nat :| LetIn(c, s1, rest, k, x) && NotEnded(rest, k + 1, x);
        LetInLater(c, s, es, x, k);
        LetInLater(c, s, es, x, k + 1);
        assert LetIn(c, s, es, k + 1, x) && NotEnded(es, k + 2, x);
      }
      if k: nat :| LetIn(c, s, es, k, x) && NotEnded(es, k + 1, x) && k > 0 {
        LetInLater(c, s, es, x, k - 1);
        LetInLater(c, s, es, x, k);
        assert LetIn(c, s1, rest, k - 1, x) && NotEnded(rest, k, x);
      }
      if LetIn(c, s, es, 0, x) && NotEnded(rest, 0, x) {
        assert NotEnded(es, 0 + 1, x);
      }
      FirstEvent(c, s, es, x);
    }
  }

  lemma {:induction false} FirstEvent(c: Config, s: Shared, es: seq<Event>, x: (Pid, CallId))
    requires es != []
    ensures x in Next(c, s, es[0]).running <==>
      LetIn(c, s, es, 0, x) || (x in s.running && !((es[0].Succeeds? || es[0].Fails?) && (es[0].pid, es[0].call) == x))
  {
    assert es[..0] == [];
  }

  // ----- what every reachable record looks like -----

  predicate Plausible(c: Config, s: CircuitState, now: Time) {
    && s.failureCount >= 0 && 0.0 <= s.windowStartedAt <= now
    && (s.phase.Open? ==> s.failureCount >= c.threshold && s.windowStartedAt > 0.0 && 0.0 < s.openedAt <= now)
  }

  ghost predicate AllPlausible(c: Config, sys: System, now: Time) {
    && (sys.stored.Some? ==> Plausible(c, sys.stored.value, now))
    && (forall p: Pid :: Plausible(c, ReplicaOf(sys, p).local, now) && ReplicaOf(sys, p).disabledUntil == 0.0)
  }

  lemma {:induction false} FailureIsPlausible(c: Config, s: CircuitState, now: Time, at: Time)
    requires c.Sane() && Plausible(c, s, now) && 0.0 <= now <= at && at > 0.0
    ensures Plausible(c, AfterFailure(c, s, at), at) && Plausible(c, Coerced(c, s, at), at) && Plausible(c, Tripped(c, at), at)
  {
  }

  predicate PlausibleView(c: Config, v: View, now: Time) {
    Plausible(c, v.local, now) && (v.stored.Some? ==> Plausible(c, v.stored.value, now)) && v.disabledUntil == 0.0
  }

  lemma {:induction false} LoadedIsPlausible(c: Config, v: View, now: Time, at: Time)
    requires 0.0 <= now <= at && PlausibleView(c, v, now)
    ensures PlausibleView(c, v, at) && PlausibleView(c, Load(SHARED, v, at, true), at)
  {
  }

  lemma {:induction false} SavedIsPlausible(c: Config, v: View, s: CircuitState, at: Time)
    requires PlausibleView(c, v, at) && Plausible(c, s, at)
    ensures PlausibleView(c, Save(SHARED, v, s, at, true), at)
  {
  }

  lemma {:induction false} MovedIsPlausible(c: Config, v: View, m: Move, now: Time)
    requires c.Sane() && 0.0 <= now <= m.at && m.at > 0.0 && m.io == Io(true, true) && PlausibleView(c, v, now)
    ensures PlausibleView(c, Moved(c, v, m), m.at)
  {
    var loaded := Load(SHARED, v, m.at, true);
    LoadedIsPlausible(c, v, now, m.at);
    FailureIsPlausible(c, loaded.local, m.at, m.at);
    SavedIsPlausible(c, loaded, AfterFailure(c, loaded.local, m.at), m.at);
    SavedIsPlausible(c, loaded, Coerced(c, loaded.local, m.at), m.at);
    SavedIsPlausible(c, loaded, Tripped(c, m.at), m.at);
    SavedIsPlausible(c, v, FRESH, m.at);
  }

  lemma {:induction false} NextIsPlausible(c: Config, s: Shared, e: Event, now: Time)
    requires c.Sane() && AllPlausible(c, s.sys, now) && 0.0 <= now <= e.at && e.at > 0.0
    ensures AllPlausible(c, Next(c, s, e).sys, e.at)
  {
    MovedIsPlausible(c, ViewOf(s.sys, e.pid), MoveOf(e), now);
    var moved := Apply(c, s.sys, MoveOf(e));
    forall p: Pid
      ensures Plausible(c, ReplicaOf(moved, p).local, e.at) && ReplicaOf(moved, p).disabledUntil == 0.0
      ensures Plausible(c, ReplicaOf(s.sys, p).local, e.at)
    {
      assert Plausible(c, ReplicaOf(s.sys, p).local, now);
    }
  }

  lemma {:induction false} RunIsPlausible(c: Config, s: Shared, es: seq<Event>, now: Time, until: Time)
    requires c.Sane() && AllPlausible(c, s.sys, now) && 0.0 <= now <= until && InOrder(es)
    requires forall i :: 0 <= i < |es| ==> 0.0 < es[i].at && now <= es[i].at <= until
    ensures AllPlausible(c, Run(c, s, es).sys, until)
    decreases |es|
  {
    if es == [] {
      forall p: Pid ensures Plausible(c, ReplicaOf(s.sys, p).local, until) {
        assert Plausible(c, ReplicaOf(s.sys, p).local, now);
      }
    } else {
      NextIsPlausible(c, s, es[0], now);
      RunIsPlausible(c, Next(c, s, es[0]), es[1..], es[0].at, until);
    }
  }

  // ----- an opening stored at time `o` -----

  predicate StoredOpen(s: Shared) {
    s.sys.stored.Some? && s.sys.stored.value.phase.Open?
  }

  /** A plausible record of an opening at `o` is stored, and every process uses the store. */
  ghost predicate OpenedAt(c: Config, s: Shared, o: Time) {
    && StoredOpen(s) && s.sys.stored.value.openedAt == o
    && AllPlausible(c, s.sys, o)
  }

  /** What else may happen: external failures are reported, openings are forced. */
  datatype Scope = Scope(external: bool, forced: bool)

  predicate InScope(e: Event, scope: Scope) {
    (e.Reports? ==> scope.external) && (e.Forces? ==> scope.forced)
  }

  /** All events in order, from the opening on and before its recovery timeout. */
  predicate BeforeRecovery(c: Config, es: seq<Event>, o: Time, scope: Scope) {
    && InOrder(es)
    && (forall i :: 0 <= i < |es| ==> o <= es[i].at < o + c.recovery)
    && (forall i :: 0 <= i < |es| ==> InScope(es[i], scope))
  }

  /** A process that holds `r` as the opening is stored cannot be led by it to run a call or to
      recover: it must refresh its copy first, or the copy is open until it must. */
  predicate HarmlessCopy(c: Config, r: Replica, o: Time) {
    || r.nextRefreshAt <= o
    || (r.local.phase.Open? && (r.local.openedAt >= o || r.nextRefreshAt <= r.local.openedAt + c.recovery))
  }

  /** An external failure is counted after the failure window and before the timeout. */
  predicate WindowEndsFirst(c: Config, s: Shared, o: Time)
    requires StoredOpen(s)
  {
    c.threshold > 1 && s.sys.stored.value.windowStartedAt + c.window < o + c.recovery
  }

  ghost predicate Safe(c: Config, s: Shared, o: Time, scope: Scope) {
    && StoredOpen(s) && s.running == {}
    && (forall p: Pid :: HarmlessCopy(c, ReplicaOf(s.sys, p), o))
    && (scope.external ==> !WindowEndsFirst(c, s, o))
  }

  // ----- a safe opening is kept -----

  /** What holds all through a run: a later opening may have replaced the first. */
  ghost predicate Kept(c: Config, s: Shared, o: Time, scope: Scope, now: Time) {
    && Safe(c, s, o, scope)
    && o <= s.sys.stored.value.openedAt
    && AllPlausible(c, s.sys, now)
  }

  lemma {:induction false} SafeViewIsKept(c: Config, v: View, m: Move, o: Time, scope: Scope, now: Time)
    requires c.Sane() && 0.0 < o <= now <= m.at < o + c.recovery && m.io == Io(true, true)
    requires m.action.Gate? || m.action.Trip? || (scope.external && m.action.External?)
    requires v.stored.Some? && v.stored.value.phase.Open? && v.stored.value.openedAt >= o
    requires Plausible(c, v.stored.value, now) && Plausible(c, v.local, now) && v.disabledUntil == 0.0
    requires HarmlessCopy(c, Replica(v.local, v.disabledUntil, v.nextRefreshAt), o)
    requires scope.external && c.threshold > 1 ==> v.stored.value.windowStartedAt + c.window >= o + c.recovery
    ensures var v' := Moved(c, v, m);
      && v'.stored.Some? && v'.stored.value.phase.Open? && v'.stored.value.openedAt >= o
      && HarmlessCopy(c, Replica(v'.local, v'.disabledUntil, v'.nextRefreshAt), o)
      && (scope.external && c.threshold > 1 ==> v'.stored.value.windowStartedAt + c.window >= o + c.recovery)
      && (m.action.Gate? ==> !Admits(SHARED, v', m.at))
  {
  }

  lemma {:induction false} NextIsKept(c: Config, s: Shared, e: Event, o: Time, scope: Scope, now: Time)
    requires c.Sane() && 0.0 < o <= now <= e.at < o + c.recovery && Kept(c, s, o, scope, now)
    requires InScope(e, scope)
    ensures Kept(c, Next(c, s, e), o, scope, e.at)
  {
    NextIsPlausible(c, s, e, now);
    if !e.Succeeds? && !e.Fails? {
      assert HarmlessCopy(c, ReplicaOf(s.sys, e.pid), o);
      SafeViewIsKept(c, ViewOf(s.sys, e.pid), MoveOf(e), o, scope, now);
      var next := Next(c, s, e);
      forall p: Pid ensures HarmlessCopy(c, ReplicaOf(next.sys, p), o) {
        assert HarmlessCopy(c, ReplicaOf(s.sys, p), o);
      }
    }
  }

  lemma {:induction false} RunIsKept(c: Config, s: Shared, es: seq<Event>, o: Time, scope: Scope, now: Time)
    requires c.Sane() && 0.0 < o <= now && Kept(c, s, o, scope, now) && BeforeRecovery(c, es, o, scope)
    requires forall i :: 0 <= i < |es| ==> now <= es[i].at
    ensures StoredOpen(Run(c, s, es)) && Run(c, s, es).running == {}
    decreases |es|
  {
    if es != [] {
      NextIsKept(c, s, es[0], o, scope, now);
      RunIsKept(c, Next(c, s, es[0]), es[1..], o, scope, es[0].at);
    }
  }

  // ----- any other can be lost -----

  lemma {:induction false} RunOne(c: Config, s: Shared, e: Event)
    ensures Run(c, s, [e]) == Next(c, s, e)
  {
    assert [e][1..] == [];
    assert Run(c, s, [e]) == Run(c, Next(c, s, e), []);
  }

  lemma {:induction false} RunTwo(c: Config, s: Shared, e: Event, f: Event)
    ensures Run(c, s, [e, f]) == Next(c, Next(c, s, e), f)
  {
    assert [e, f][1..] == [f];
    RunOne(c, Next(c, s, e), f);
  }

  /** A call is running in a process with a harmless copy: the process looks, and the call succeeds. */
  lemma {:induction false} RunningCallCloses(c: Config, s: Shared, o: Time, p: Pid, call: CallId)
    requires c.Sane() && o > 0.0 && OpenedAt(c, s, o) && (p, call) in s.running && HarmlessCopy(c, ReplicaOf(s.sys, p), o)
    ensures !StoredOpen(Run(c, s, [Look(p, o), Succeeds(p, call, o)]))
  {
    RunTwo(c, s, Look(p, o), Succeeds(p, call, o));
    assert Plausible(c, ReplicaOf(s.sys, p).local, o) && ReplicaOf(s.sys, p).disabledUntil == 0.0;
    var looked := Next(c, s, Look(p, o));
    assert ReplicaOf(looked.sys, p).local.phase.Open?;
  }

  /** A process holds a copy that is not open: it lets two calls through; one fails, which may
      or may not open the breaker again, and the other succeeds. */
  lemma {:induction false} StaleCopyCloses(c: Config, s: Shared, o: Time, p: Pid)
    requires c.Sane() && o > 0.0 && ReplicaOf(s.sys, p).disabledUntil == 0.0 && ReplicaOf(s.sys, p).local.failureCount >= 0
    requires ReplicaOf(s.sys, p).nextRefreshAt > o && !ReplicaOf(s.sys, p).local.phase.Open?
    ensures !StoredOpen(Run(c, s, [Call(p, 0, o), Call(p, 1, o)] + [Fails(p, 1, o), Succeeds(p, 0, o)]))
  {
    var a, b := [Call(p, 0, o), Call(p, 1, o)], [Fails(p, 1, o), Succeeds(p, 0, o)];
    RunSplits(c, s, a, b);
    RunTwo(c, s, Call(p, 0, o), Call(p, 1, o));
    var called := Run(c, s, a);
    RunTwo(c, called, Fails(p, 1, o), Succeeds(p, 0, o));
    assert (p, 0) in called.running && (p, 1) in called.running;
    var failed := Next(c, called, Fails(p, 1, o));
    assert !Quiet(ReplicaOf(failed.sys, p).local);
  }

  lemma {:induction false} RunSplits(c: Config, s: Shared, a: seq<Event>, b: seq<Event>)
    ensures Run(c, s, a + b) == Run(c, Run(c, s, a), b)
    decreases |a|
  {
    if a == [] {
      assert a + b == b;
    } else {
      assert (a + b)[1..] == a[1..] + b;
      RunSplits(c, Next(c, s, a[0]), a[1..], b);
    }
  }

  /** A process holds an older opening that recovers before the copy is refreshed. */
  lemma {:induction false} OldCopyRecovers(c: Config, s: Shared, o: Time, p: Pid) returns (at: Time)
    requires c.Sane() && o > 0.0 && ReplicaOf(s.sys, p).disabledUntil == 0.0
    requires var r := ReplicaOf(s.sys, p);
      r.nextRefreshAt > o && r.local.phase.Open? && r.local.openedAt < o && r.nextRefreshAt > r.local.openedAt + c.recovery
    ensures o <= at < o + c.recovery && !StoredOpen(Run(c, s, [Look(p, at)]))
  {
    var due := ReplicaOf(s.sys, p).local.openedAt + c.recovery;
    at := if due < o then o else due;
    RunOne(c, s, Look(p, at));
  }

  lemma {:induction false} NewProcess(known: set<Pid>) returns (p: Pid)
    ensures p !in known
    ensures forall q :: q in known ==> q < p
    decreases |known|
  {
    if known == {} {
      p := 0;
    } else {
      var q :| q in known;
      var rest := NewProcess(known - {q});
      p := if q < rest then rest else q + 1;
      forall x | x in known ensures x < p {
        assert x == q || x in known - {q};
      }
    }
  }

  /** A process that has just started reports an external failure after the failure window. */
  lemma {:induction false} LateReportCloses(c: Config, s: Shared, o: Time) returns (p: Pid, at: Time)
    requires c.Sane() && o > 0.0 && StoredOpen(s) && Plausible(c, s.sys.stored.value, o) && WindowEndsFirst(c, s, o)
    ensures o <= at < o + c.recovery && !StoredOpen(Run(c, s, [Reports(p, at)]))
  {
    p := NewProcess(s.sys.replicas.Keys);
    var ends := s.sys.stored.value.windowStartedAt + c.window;
    at := if ends < o then o else (ends + o + c.recovery) / 2.0;
    RunOne(c, s, Reports(p, at));
    assert ReplicaOf(s.sys, p) == BOOTED_REPLICA;
    assert Load(SHARED, ViewOf(s.sys, p), at, true).local == s.sys.stored.value;
  }

  /** A copy that is not harmless loses the opening. */
  lemma {:induction false} UnsafeCopyIsLost(c: Config, s: Shared, o: Time, scope: Scope, p: Pid) returns (es: seq<Event>)
    requires c.Sane() && o > 0.0 && OpenedAt(c, s, o) && !HarmlessCopy(c, ReplicaOf(s.sys, p), o)
    ensures BeforeRecovery(c, es, o, scope) && !StoredOpen(Run(c, s, es))
  {
    assert Plausible(c, ReplicaOf(s.sys, p).local, o) && ReplicaOf(s.sys, p).disabledUntil == 0.0;
    if ReplicaOf(s.sys, p).local.phase.Open? {
      var at := OldCopyRecovers(c, s, o, p);
      es := [Look(p, at)];
    } else {
      es := [Call(p, 0, o), Call(p, 1, o)] + [Fails(p, 1, o), Succeeds(p, 0, o)];
      StaleCopyCloses(c, s, o, p);
    }
  }

  lemma {:induction false} RunningIsLost(c: Config, s: Shared, o: Time, scope: Scope, call: (Pid, CallId)) returns (es: seq<Event>)
    requires c.Sane() && o > 0.0 && OpenedAt(c, s, o) && call in s.running && HarmlessCopy(c, ReplicaOf(s.sys, call.0), o)
    ensures BeforeRecovery(c, es, o, scope) && !StoredOpen(Run(c, s, es))
  {
    es := [Look(call.0, o), Succeeds(call.0, call.1, o)];
    RunningCallCloses(c, s, o, call.0, call.1);
  }

  lemma {:induction false} UnsafeIsLost(c: Config, s: Shared, o: Time, scope: Scope) returns (es: seq<Event>)
    requires c.Sane() && o > 0.0 && OpenedAt(c, s, o) && !Safe(c, s, o, scope)
    ensures BeforeRecovery(c, es, o, scope) && !StoredOpen(Run(c, s, es))
  {
    if p: Pid :| !HarmlessCopy(c, ReplicaOf(s.sys, p), o) {
      es := UnsafeCopyIsLost(c, s, o, scope, p);
    } else if s.running != {} {
      var call :| call in s.running;
      es := RunningIsLost(c, s, o, scope, call);
    } else {
      var p, at := LateReportCloses(c, s, o);
      es := [Reports(p, at)];
    }
  }

  /** In every reachable state in which an opening has just been stored: the stored record is
      open after every continuation before its recovery timeout, whatever all processes do, if
      and only if no call is running in any process, every process must refresh its copy before
      it can let a call through or recover, and, where external failures are reported, the
      failure window does not end before the timeout. Forced openings make no difference. */
  lemma {:induction false} OpeningIsKeptIff(c: Config, before: seq<Event>, s: Shared, o: Time, scope: Scope)
    requires c.Sane() && s == Run(c, STARTED, before) && InOrder(before)
    requires forall i :: 0 <= i < |before| ==> 0.0 < before[i].at <= o
    requires StoredOpen(s) && s.sys.stored.value.openedAt == o
    ensures (forall es :: BeforeRecovery(c, es, o, scope) ==> StoredOpen(Run(c, s, es))) <==> Safe(c, s, o, scope)
  {
    OpeningsArePlausible(c, before, s, o);
    if Safe(c, s, o, scope) {
      forall es | BeforeRecovery(c, es, o, scope) ensures StoredOpen(Run(c, s, es)) {
        RunIsKept(c, s, es, o, scope, o);
      }
    } else {
      var es := UnsafeIsLost(c, s, o, scope);
    }
  }

  /** And then no process lets any call through before the timeout. */
  lemma {:induction false} KeptOpeningAdmitsNothing(c: Config, before: seq<Event>, s: Shared, o: Time, scope: Scope, es: seq<Event>)
    requires c.Sane() && s == Run(c, STARTED, before) && InOrder(before)
    requires forall i :: 0 <= i < |before| ==> 0.0 < before[i].at <= o
    requires StoredOpen(s) && s.sys.stored.value.openedAt == o && Safe(c, s, o, scope)
    requires BeforeRecovery(c, es, o, scope)
    ensures Run(c, s, es).running == {}
  {
    OpeningsArePlausible(c, before, s, o);
    RunIsKept(c, s, es, o, scope, o);
  }

  lemma {:induction false} OpeningsArePlausible(c: Config, before: seq<Event>, s: Shared, o: Time)
    requires c.Sane() && s == Run(c, STARTED, before) && InOrder(before)
    requires forall i :: 0 <= i < |before| ==> 0.0 < before[i].at <= o
    requires StoredOpen(s) && s.sys.stored.value.openedAt == o
    ensures OpenedAt(c, s, o) && o > 0.0
  {
    assert before != [];
    RunIsPlausible(c, STARTED, before, 0.0, o);
  }
}
