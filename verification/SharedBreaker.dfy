/** Several processes, each with its own cached copy, over one shared breaker record. */
module SharedBreaker {
  import opened Wrappers
  import opened CircuitSpec
  import Breaker

  type Pid = nat

  /** A process's own fields; the stored record is common. */
  datatype Replica = Replica(local: CircuitState, disabledUntil: Time, nextRefreshAt: Time)

  datatype System = System(replicas: map<Pid, Replica>, stored: Option<CircuitState>)

  const BOOTED_REPLICA := Replica(FRESH, 0.0, 0.0)

  function ReplicaOf(sys: System, p: Pid): Replica {
    if p in sys.replicas then sys.replicas[p] else BOOTED_REPLICA
  }

  function ViewOf(sys: System, p: Pid): View {
    var r := ReplicaOf(sys, p);
    View(r.local, r.disabledUntil, r.nextRefreshAt, sys.stored)
  }

  function WithView(sys: System, p: Pid, v: View): System {
    System(sys.replicas[p := Replica(v.local, v.disabledUntil, v.nextRefreshAt)], v.stored)
  }

  datatype Action = Gate | Succeed | Fail | External | Trip

  /** One method of one process's breaker, with the outcome of its store accesses. */
  datatype Move = Move(pid: Pid, action: Action, at: Time, io: Io)

  const SHARED: Wiring := Wiring(false, true)

  function Moved(c: Config, v: View, m: Move): View {
    match m.action
    case Gate => Observe(c, SHARED, v, m.at, m.io)
    case Succeed => RecordSuccess(SHARED, v, m.at, m.io)
    case Fail => RecordFailure(c, SHARED, v, m.at, m.io)
    case External => ExternalFailure(c, SHARED, v, m.at, m.io)
    case Trip => ForceOpen(c, SHARED, v, m.at, m.io)
  }

  function Apply(c: Config, sys: System, m: Move): System {
    WithView(sys, m.pid, Moved(c, ViewOf(sys, m.pid), m))
  }

  /** Whether the move saves a record at all, whatever becomes of the write. */
  predicate Writes(c: Config, sys: System, m: Move) {
    var v := ViewOf(sys, m.pid);
    match m.action
    case Gate => Recovered(c, Load(SHARED, v, m.at, m.io.readOk).local, m.at)
    case Succeed => !Quiet(v.local)
    case Fail => true
    case External => !v.local.phase.Open?
    case Trip => true
  }

  function Play(c: Config, sys: System, ms: seq<Move>): System
    decreases |ms|
  {
    if ms == [] then sys else Play(c, Apply(c, sys, ms[0]), ms[1..])
  }

  predicate Ordered(ms: seq<Move>, from: Time) {
    && (forall i :: 0 <= i < |ms| ==> ms[i].at >= from)
    && (forall i, j :: 0 <= i < j < |ms| ==> ms[i].at <= ms[j].at)
  }

  /** No process writes during `ms`, and process `p` finds the store reachable. */
  predicate Undisturbed(c: Config, sys: System, ms: seq<Move>, p: Pid)
    decreases |ms|
  {
    ms == [] ||
    (&& !Writes(c, sys, ms[0])
     && (ms[0].pid == p ==> ms[0].io.readOk)
     && Undisturbed(c, Apply(c, sys, ms[0]), ms[1..], p))
  }

  /** Whether the gate refuses a call that process `p` receives at `now`. */
  predicate Rejects(c: Config, sys: System, p: Pid, now: Time, io: Io) {
    !Admits(SHARED, Observe(c, SHARED, ViewOf(sys, p), now, io), now)
  }

  /** No cached copy is kept for longer than the refresh interval. */
  ghost predicate ShortLived(sys: System, now: Time) {
    forall p: Pid :: ReplicaOf(sys, p).nextRefreshAt <= now + 0.1
  }

  lemma {:induction false} CopiesAreShortLived(c: Config, sys: System, ms: seq<Move>, from: Time, until: Time)
    requires from <= until && ShortLived(sys, from) && Ordered(ms, from)
    requires forall i :: 0 <= i < |ms| ==> ms[i].at <= until
    ensures ShortLived(Play(c, sys, ms), until)
    decreases |ms|
  {
    if ms == [] {
      forall p: Pid ensures ReplicaOf(sys, p).nextRefreshAt <= until + REFRESH_INTERVAL {}
    } else {
      var m, next := ms[0], Apply(c, sys, ms[0]);
      forall p: Pid ensures ReplicaOf(next, p).nextRefreshAt <= m.at + REFRESH_INTERVAL {
        var was := ReplicaOf(sys, p);
      }
      CopiesAreShortLived(c, next, ms[1..], m.at, until);
    }
  }

  /** The copy of `p` is the stored opening, or is due for refresh soon after it. */
  predicate Catching(sys: System, p: Pid, opening: CircuitState) {
    && sys.stored == Some(opening)
    && ReplicaOf(sys, p).disabledUntil <= opening.openedAt
    && (ReplicaOf(sys, p).local == opening
        || ReplicaOf(sys, p).nextRefreshAt <= opening.openedAt + REFRESH_INTERVAL)
  }

  lemma {:induction false} MoveKeepsCatching(c: Config, sys: System, m: Move, p: Pid, opening: CircuitState)
    requires Catching(sys, p, opening) && m.at >= opening.openedAt
    requires !Writes(c, sys, m) && (m.pid == p ==> m.io.readOk)
    ensures Catching(Apply(c, sys, m), p, opening)
  {
  }

  lemma {:induction false} QuietKeepsCatching(c: Config, sys: System, ms: seq<Move>, p: Pid, opening: CircuitState)
    requires Catching(sys, p, opening) && Ordered(ms, opening.openedAt) && Undisturbed(c, sys, ms, p)
    ensures Catching(Play(c, sys, ms), p, opening)
    decreases |ms|
  {
    if ms != [] {
      MoveKeepsCatching(c, sys, ms[0], p, opening);
      QuietKeepsCatching(c, Apply(c, sys, ms[0]), ms[1..], p, opening);
    }
  }

  /** `tripped` is a state that some run reaches by `opener` storing an opening. */
  predicate StoresOpening(c: Config, before: seq<Move>, opener: Move, tripped: System) {
    && tripped == Play(c, System(map[], None), before + [opener])
    && tripped.stored.Some? && tripped.stored.value.phase.Open? && tripped.stored.value.openedAt == opener.at
  }

  lemma {:induction false} CaughtUpRejects(c: Config, sys: System, p: Pid, opening: CircuitState, now: Time, io: Io)
    requires Catching(sys, p, opening) && opening.phase.Open? && io.readOk
    requires opening.openedAt + 0.1 <= now < opening.openedAt + c.recovery
    ensures Rejects(c, sys, p, now, io)
  {
  }

  /** Whatever every process had cached: once some process has stored an opening at time
      `o`, and no one writes after it, every process that finds the store reachable
      rejects every call it receives from `o + 0.1` until the recovery timeout. */
  lemma {:induction false} OpeningReachesEveryone(c: Config, before: seq<Move>, opener: Move, tripped: System, after: seq<Move>, p: Pid, now: Time, io: Io)
    requires c.Sane() && Ordered(before + [opener], 0.0) && Ordered(after, opener.at)
    requires StoresOpening(c, before, opener, tripped)
    requires ReplicaOf(tripped, p).disabledUntil <= opener.at && Undisturbed(c, tripped, after, p)
    requires opener.at + 0.1 <= now < opener.at + c.recovery && io.readOk
    ensures Rejects(c, Play(c, tripped, after), p, now, io)
  {
    var opening := tripped.stored.value;
    LastIsLatest(before, opener);
    CopiesAreShortLived(c, System(map[], None), before + [opener], 0.0, opener.at);
    assert ReplicaOf(tripped, p).nextRefreshAt <= opener.at + REFRESH_INTERVAL;
    QuietKeepsCatching(c, tripped, after, p, opening);
    CaughtUpRejects(c, Play(c, tripped, after), p, opening, now, io);
  }

  lemma {:induction false} LastIsLatest(before: seq<Move>, last: Move)
    requires Ordered(before + [last], 0.0)
    ensures last.at >= 0.0 && forall i :: 0 <= i < |before + [last]| ==> (before + [last])[i].at <= last.at
  {
    assert (before + [last])[|before|] == last;
  }

  /** The 0.1 s cannot be dropped: just after the opening a process may still act on the
      copy it fetched just before it. */
  lemma {:induction false} StaleCopyMayAdmit(c: Config, opener: Pid, other: Pid, now: Time)
    requires c.Sane() && opener != other && c.recovery > 0.1 && now > 0.0
    ensures var ok := Io(true, true);
      var sys := Play(c, System(map[], None), [Move(other, Gate, now, ok), Move(opener, Trip, now, ok)]);
      && sys.stored == Some(Tripped(c, now))
      && forall later :: now <= later < now + 0.1 ==> !Rejects(c, sys, other, later, ok)
  {
    var ok := Io(true, true);
    var sys := PlayTwo(c, System(map[], None), Move(other, Gate, now, ok), Move(opener, Trip, now, ok));
  }

  /** Nor that nobody writes: such a process lets a call through and, with a threshold above
      one, records its failure on the stale copy, which overwrites the shared opening. No call
      was running when it was stored, and soon the opener itself lets calls through. */
  lemma {:induction false} StaleFailureOverwritesOpening(c: Config, opener: Pid, other: Pid, now: Time)
    requires c.Sane() && opener != other && c.threshold > 1 && c.recovery > 1.0 && now > 0.0
    ensures var ok := Io(true, true);
      var tripped := Play(c, System(map[], None), [Move(other, Gate, now, ok), Move(opener, Trip, now, ok)]);
      var written := Play(c, tripped, [Move(other, Gate, now + 0.05, ok), Move(other, Fail, now + 0.06, ok)]);
      && tripped.stored == Some(Tripped(c, now)) && !Rejects(c, tripped, other, now + 0.05, ok)
      && written.stored.Some? && written.stored.value.phase.Closed?
      && !Rejects(c, written, opener, now + 0.2, ok)
  {
    var ok := Io(true, true);
    var boot := System(map[], None);
    StaleCopyMayAdmit(c, opener, other, now);
    var tripped := PlayTwo(c, boot, Move(other, Gate, now, ok), Move(opener, Trip, now, ok));
    var written := PlayTwo(c, tripped, Move(other, Gate, now + 0.05, ok), Move(other, Fail, now + 0.06, ok));
    var stale := Replica(FRESH, 0.0, now + REFRESH_INTERVAL);
    assert ReplicaOf(tripped, other) == stale;
    assert ReplicaOf(Apply(c, tripped, Move(other, Gate, now + 0.05, ok)), other) == stale;
    assert written.stored == Some(CircuitState(Closed, 1, now + 0.06, 0.0));
    assert ReplicaOf(written, opener).nextRefreshAt == now + REFRESH_INTERVAL;
  }

  lemma {:induction false} PlayTwo(c: Config, sys: System, a: Move, b: Move) returns (end: System)
    ensures end == Apply(c, Apply(c, sys, a), b) == Play(c, sys, [a, b])
  {
    assert [a, b][1..] == [b] && [b][1..] == [];
    end := Apply(c, Apply(c, sys, a), b);
    assert Play(c, sys, [a, b]) == Play(c, Apply(c, sys, a), [b]) == Play(c, end, []);
  }

  // ----- single moves -----

  function EndOf<R>(p: Pid, t: Breaker.Trial<R>): Move {
    match t.outcome
    case Answered(_) => Move(p, Succeed, t.finish, t.after)
    case ConnectionFailed => Move(p, Fail, t.finish, t.after)
    case ResponseFailed => Move(p, Fail, t.finish, t.after)
    case OtherFailed => Move(p, Fail, t.finish, t.after)
  }

  /** A call is its gate and, if it is let through, the success or failure it ends in; an error
      of any kind is a failure. */
  lemma {:induction false} CallIsGateAndEnd<R>(c: Config, sys: System, p: Pid, t: Breaker.Trial<R>)
    ensures var gate := Move(p, Gate, t.start, t.before);
      WithView(sys, p, Breaker.CallView(c, SHARED, ViewOf(sys, p), t)) ==
        Play(c, sys, if Rejects(c, sys, p, t.start, t.before) then [gate] else [gate, EndOf(p, t)])
  {
    var gate := Move(p, Gate, t.start, t.before);
    assert [gate][1..] == [];
    assert Play(c, sys, [gate]) == Apply(c, sys, gate);
    var end := PlayTwo(c, sys, gate, EndOf(p, t));
    assert end.replicas == sys.replicas[p := end.replicas[p]];
  }

  /** The gate goes by the copy alone, refreshed and recovered; a process that cannot read the
      store rejects exactly while its own copy is open and not recovered. */
  lemma {:induction false} GateGoesByCopy(c: Config, sys: System, p: Pid, now: Time, io: Io)
    ensures Rejects(c, sys, p, now, io) <==> ReplicaOf(Apply(c, sys, Move(p, Gate, now, io)), p).local.phase == Open
    ensures Unread(sys, p, now, io) ==>
      var own := ReplicaOf(sys, p).local;
      (Rejects(c, sys, p, now, io) <==> own.phase == Open && now - own.openedAt < c.recovery)
  {
  }

  /** What a process has just written, stored or not, it does not refresh for 0.1 s. */
  lemma {:induction false} WritesAreFresh(c: Config, sys: System, m: Move)
    requires Writes(c, sys, m)
    ensures ReplicaOf(Apply(c, sys, m), m.pid).nextRefreshAt == m.at + 0.1
  {
  }

  /** A success is recorded without reading the store. */
  lemma {:induction false} SuccessReadsNothing(c: Config, sys: System, m: Move, readOk: bool)
    requires m.action.Succeed?
    ensures Apply(c, sys, m) == Apply(c, sys, m.(io := Io(readOk, m.io.writeOk)))
  {
  }

  // ----- a store that fails -----

  function WithoutStore(sys: System, p: Pid, until: Time): System {
    sys.(replicas := sys.replicas[p := ReplicaOf(sys, p).(disabledUntil := until)])
  }

  /** The process would reach for the store in this move, its copy being due. */
  predicate Reaches(sys: System, m: Move) {
    var r := ReplicaOf(sys, m.pid);
    && m.at >= r.disabledUntil && m.at >= r.nextRefreshAt
    && !m.action.Succeed? && (m.action.External? ==> !r.local.phase.Open?)
  }

  /** A failed read changes nothing of the shared record and puts the store out of use for 30 s;
      the process acts on its own copy as if it had been out of use before. */
  lemma {:induction false} FailedReadGoesOffline(c: Config, sys: System, m: Move)
    requires Reaches(sys, m) && !m.io.readOk
    ensures var next := Apply(c, sys, m);
      && next.stored == sys.stored
      && ReplicaOf(next, m.pid).disabledUntil == m.at + 30.0
      && ReplicaOf(next, m.pid) == ReplicaOf(Apply(c, WithoutStore(sys, m.pid, m.at + 30.0), m), m.pid)
  {
  }

  /** A failed write also leaves the shared record and disables the store for 30 s, and the
      process keeps, until its next refresh, the copy it could not store. */
  lemma {:induction false} FailedWriteGoesOffline(c: Config, sys: System, m: Move)
    requires Writes(c, sys, m) && m.io.readOk && !m.io.writeOk && m.at >= ReplicaOf(sys, m.pid).disabledUntil
    ensures var next, written := Apply(c, sys, m), Apply(c, sys, m.(io := Io(true, true)));
      && next.stored == sys.stored
      && ReplicaOf(next, m.pid).disabledUntil == m.at + 30.0
      && ReplicaOf(next, m.pid).local == ReplicaOf(written, m.pid).local
      && written.stored == Some(ReplicaOf(written, m.pid).local)
  {
  }

  function Only(ms: seq<Move>, p: Pid): seq<Move> {
    if ms == [] then [] else (if ms[0].pid == p then [ms[0]] else []) + Only(ms[1..], p)
  }

  function Without(ms: seq<Move>, p: Pid): seq<Move> {
    if ms == [] then [] else (if ms[0].pid == p then [] else [ms[0]]) + Without(ms[1..], p)
  }

  /** The systems differ in nothing but the process `p`. */
  ghost predicate AgreeBut(a: System, b: System, p: Pid) {
    a.stored == b.stored && forall q: Pid :: q != p ==> ReplicaOf(a, q) == ReplicaOf(b, q)
  }

  lemma {:induction false} PlayFirst(c: Config, sys: System, m: Move, rest: seq<Move>)
    ensures Play(c, sys, [m] + rest) == Play(c, Apply(c, sys, m), rest)
    ensures [] + rest == rest
  {
    assert ([m] + rest)[1..] == rest;
  }

  lemma {:induction false} OfflineMove(c: Config, sys: System, m: Move)
    requires m.at < ReplicaOf(sys, m.pid).disabledUntil
    ensures var next := Apply(c, sys, m);
      && next.stored == sys.stored && AgreeBut(next, sys, m.pid)
      && ReplicaOf(next, m.pid).disabledUntil == ReplicaOf(sys, m.pid).disabledUntil
  {
  }

  /** While its store is out of use a process reads nothing of the shared record: its copy goes
      as its own moves alone take it, whatever is stored and whatever the others do. */
  lemma {:induction false} OfflineReadsNothing(c: Config, sys: System, other: System, ms: seq<Move>, p: Pid)
    requires ReplicaOf(sys, p) == ReplicaOf(other, p)
    requires forall i :: 0 <= i < |ms| ==> ms[i].at < ReplicaOf(sys, p).disabledUntil
    ensures ReplicaOf(Play(c, sys, ms), p) == ReplicaOf(Play(c, other, Only(ms, p)), p)
    decreases |ms|
  {
    if ms != [] {
      var m, rest := ms[0], Only(ms[1..], p);
      PlayFirst(c, other, m, rest);
      assert m.at < ReplicaOf(sys, p).disabledUntil;
      if m.pid == p {
        OfflineMove(c, sys, m);
        assert ReplicaOf(Apply(c, sys, m), p) == ReplicaOf(Apply(c, other, m), p);
        OfflineReadsNothing(c, Apply(c, sys, m), Apply(c, other, m), ms[1..], p);
      } else {
        assert ReplicaOf(Apply(c, sys, m), p) == ReplicaOf(sys, p);
        OfflineReadsNothing(c, Apply(c, sys, m), other, ms[1..], p);
      }
    }
  }

  lemma {:induction false} SameMove(c: Config, a: System, b: System, m: Move, p: Pid)
    requires AgreeBut(a, b, p) && m.pid != p
    ensures AgreeBut(Apply(c, a, m), Apply(c, b, m), p)
  {
    assert ReplicaOf(a, m.pid) == ReplicaOf(b, m.pid);
    assert ViewOf(a, m.pid) == ViewOf(b, m.pid);
    forall q: Pid | q != p ensures ReplicaOf(Apply(c, a, m), q) == ReplicaOf(Apply(c, b, m), q) {
      assert ReplicaOf(a, q) == ReplicaOf(b, q);
    }
  }

  /** And it writes nothing: the shared record and the other processes go as if it were not there. */
  lemma {:induction false} OfflineWritesNothing(c: Config, sys: System, other: System, ms: seq<Move>, p: Pid)
    requires AgreeBut(sys, other, p)
    requires forall i :: 0 <= i < |ms| ==> ms[i].at < ReplicaOf(sys, p).disabledUntil
    ensures AgreeBut(Play(c, sys, ms), Play(c, other, Without(ms, p)), p)
    decreases |ms|
  {
    if ms != [] {
      var m, rest := ms[0], Without(ms[1..], p);
      PlayFirst(c, other, m, rest);
      assert m.at < ReplicaOf(sys, p).disabledUntil;
      if m.pid == p {
        OfflineMove(c, sys, m);
        OfflineWritesNothing(c, Apply(c, sys, m), other, ms[1..], p);
      } else {
        SameMove(c, sys, other, m, p);
        assert ReplicaOf(Apply(c, sys, m), p) == ReplicaOf(sys, p);
        OfflineWritesNothing(c, Apply(c, sys, m), Apply(c, other, m), ms[1..], p);
      }
    }
  }

  /** At `now` the process finds the store failing, or out of use, or has no need of it. */
  predicate Unread(sys: System, p: Pid, now: Time, io: Io) {
    !io.readOk || now < ReplicaOf(sys, p).disabledUntil || now < ReplicaOf(sys, p).nextRefreshAt
  }

  /** In `ms` process `p` only observes, before `until`, and never gets to read the store. */
  predicate ObservesUnread(c: Config, sys: System, ms: seq<Move>, p: Pid, until: Time)
    decreases |ms|
  {
    ms == [] ||
    (&& (ms[0].pid == p ==> ms[0].action.Gate? && ms[0].at < until && Unread(sys, p, ms[0].at, ms[0].io))
     && ObservesUnread(c, Apply(c, sys, ms[0]), ms[1..], p, until))
  }

  /** An open copy outlasts the store: as long as the process cannot read, it keeps exactly
      that opening and rejects every call before its recovery timeout, whatever is stored. */
  lemma {:induction false} OpenCopyOutlastsStore(c: Config, sys: System, ms: seq<Move>, p: Pid, now: Time, io: Io)
    requires var opening := ReplicaOf(sys, p).local;
      && opening.phase.Open? && now < opening.openedAt + c.recovery
      && ObservesUnread(c, sys, ms, p, opening.openedAt + c.recovery)
    requires Unread(Play(c, sys, ms), p, now, io)
    ensures ReplicaOf(Play(c, sys, ms), p).local == ReplicaOf(sys, p).local
    ensures Rejects(c, Play(c, sys, ms), p, now, io)
    decreases |ms|
  {
    if ms != [] {
      assert ReplicaOf(Apply(c, sys, ms[0]), p).local == ReplicaOf(sys, p).local;
      OpenCopyOutlastsStore(c, Apply(c, sys, ms[0]), ms[1..], p, now, io);
    }
  }
}
