/** The circuit breaker as pure transition functions: one function per method of the
    breaker, first on a bare state record, then on one process's view of the shared record.
    Times are seconds; every caller passes the clock reading explicitly. */
module CircuitSpec {
  import opened Wrappers

  type Time = real

  datatype Phase = Closed | Open | HalfOpen

  datatype CircuitState = CircuitState(phase: Phase, failureCount: int, windowStartedAt: Time, openedAt: Time)

  const FRESH: CircuitState := CircuitState(Closed, 0, 0.0, 0.0)
  const REFRESH_INTERVAL: Time := 0.1
  const STORE_DISABLED_FOR: Time := 30.0

  datatype Config = Config(threshold: int, window: Time, recovery: Time) {
    predicate Sane() {
      threshold >= 1 && window > 0.0 && recovery > 0.0
    }
  }

  // ----- transitions of the record itself -----

  predicate Recovered(c: Config, s: CircuitState, now: Time) {
    s.phase.Open? && now - s.openedAt >= c.recovery
  }

  function Coerced(c: Config, s: CircuitState, now: Time): CircuitState {
    if Recovered(c, s, now)
    then CircuitState(HalfOpen, s.failureCount, if s.windowStartedAt != 0.0 then s.windowStartedAt else now, s.openedAt)
    else s
  }

  predicate WindowExpired(c: Config, s: CircuitState, now: Time) {
    s.windowStartedAt == 0.0 || now - s.windowStartedAt > c.window
  }

  function Tripped(c: Config, now: Time): CircuitState {
    CircuitState(Open, c.threshold, now, now)
  }

  function AfterFailure(c: Config, s: CircuitState, now: Time): CircuitState {
    if s.phase.HalfOpen? then Tripped(c, now)
    else
      var expired := WindowExpired(c, s, now);
      var count := (if expired then 0 else s.failureCount) + 1;
      var started := if expired then now else s.windowStartedAt;
      if count >= c.threshold then CircuitState(Open, count, started, now)
      else CircuitState(Closed, count, started, s.openedAt)
  }

  predicate Quiet(s: CircuitState) {
    s.phase.Closed? && s.failureCount == 0
  }

  function AfterSuccess(s: CircuitState): CircuitState {
    if Quiet(s) then s else FRESH
  }

  // ----- one process's view of the shared record -----

  /** `isRedis`: the breaker named "redis" keeps its record in the process.
      `hasStore`: a state client was given. */
  datatype Wiring = Wiring(isRedis: bool, hasStore: bool)

  /** Whether the store's get and set succeed during one method call. */
  datatype Io = Io(readOk: bool, writeOk: bool)

  datatype View = View(local: CircuitState, disabledUntil: Time, nextRefreshAt: Time, stored: Option<CircuitState>)

  const BOOTED: View := View(FRESH, 0.0, 0.0, None)

  predicate UsesStore(w: Wiring, v: View, now: Time) {
    !w.isRedis && w.hasStore && now >= v.disabledUntil
  }

  function Load(w: Wiring, v: View, now: Time, getOk: bool): View {
    if !UsesStore(w, v, now) || now < v.nextRefreshAt then v
    else if getOk then
      v.(local := if v.stored.Some? then v.stored.value else v.local, nextRefreshAt := now + REFRESH_INTERVAL)
    else v.(disabledUntil := now + STORE_DISABLED_FOR)
  }

  function Save(w: Wiring, v: View, s: CircuitState, now: Time, setOk: bool): View {
    var kept := v.(local := s, nextRefreshAt := now + REFRESH_INTERVAL);
    if !UsesStore(w, v, now) then kept
    else if setOk then kept.(stored := Some(s))
    else kept.(disabledUntil := now + STORE_DISABLED_FOR)
  }

  function CoerceView(c: Config, w: Wiring, v: View, now: Time, io: Io): View {
    if Recovered(c, v.local, now) then Save(w, v, Coerced(c, v.local, now), now, io.writeOk) else v
  }

  /** What `_before_call`, `current_state` and `snapshot` do to the view. */
  function Observe(c: Config, w: Wiring, v: View, now: Time, io: Io): View {
    CoerceView(c, w, Load(w, v, now, io.readOk), now, io)
  }

  function RecordFailure(c: Config, w: Wiring, v: View, now: Time, io: Io): View {
    var loaded := Load(w, v, now, io.readOk);
    Save(w, loaded, AfterFailure(c, loaded.local, now), now, io.writeOk)
  }

  function RecordSuccess(w: Wiring, v: View, now: Time, io: Io): View {
    if Quiet(v.local) then v else Save(w, v, FRESH, now, io.writeOk)
  }

  function ForceOpen(c: Config, w: Wiring, v: View, now: Time, io: Io): View {
    Save(w, Load(w, v, now, io.readOk), Tripped(c, now), now, io.writeOk)
  }

  function ExternalFailure(c: Config, w: Wiring, v: View, now: Time, io: Io): View {
    if v.local.phase.Open? then v else RecordFailure(c, w, v, now, io)
  }

  predicate Admits(w: Wiring, v: View, now: Time) {
    !(w.isRedis && now < v.disabledUntil) && !v.local.phase.Open?
  }
}
