/** The breaker as the object it is: a record mutated in place, a refresh deadline, a
    store-disabled deadline, and a record shared between processes. */
module Breaker {
  import opened Wrappers
  import opened CircuitSpec

  class CircuitRecord {
    var phase: Phase
    var failureCount: int
    var windowStartedAt: Time
    var openedAt: Time

    constructor (s: CircuitState)
      ensures Value() == s
    {
      phase, failureCount, windowStartedAt, openedAt := s.phase, s.failureCount, s.windowStartedAt, s.openedAt;
    }

    function Value(): CircuitState
      reads this
    {
      CircuitState(phase, failureCount, windowStartedAt, openedAt)
    }
  }

  /** The shared key of the state store. */
  class StateStore {
    var payload: Option<CircuitState>

    constructor ()
      ensures payload == None
    {
      payload := None;
    }
  }

  /** What the guarded operation does when it is invoked. */
  datatype Outcome<+R> = Answered(value: R) | ConnectionFailed | ResponseFailed | OtherFailed

  datatype Failure = CircuitOpen | ConnectionFailure | ResponseFailure | OtherFailure | NoResult

  /** `FellBack`: the fallback was invoked in place of the operation's answer. */
  datatype Reply<+R> = Returned(value: R) | FellBack | Raised(failure: Failure)

  function Refused<R>(hasFallback: bool): Reply<R> {
    if hasFallback then FellBack else Raised(CircuitOpen)
  }

  function Replied<R>(o: Outcome<R>): Reply<R> {
    match o
    case Answered(r) => Returned(r)
    case ConnectionFailed => Raised(ConnectionFailure)
    case ResponseFailed => Raised(ResponseFailure)
    case OtherFailed => Raised(OtherFailure)
  }

  /** One guarded call, begun at `start` and, if admitted, finished at `finish`. */
  datatype Trial<+R> = Trial(start: Time, finish: Time, outcome: Outcome<R>, before: Io, after: Io)

  function CallView<R>(c: Config, w: Wiring, v: View, t: Trial<R>): View {
    var seen := Observe(c, w, v, t.start, t.before);
    if !Admits(w, seen, t.start) then seen
    else if t.outcome.Answered? then RecordSuccess(w, seen, t.finish, t.after)
    else RecordFailure(c, w, seen, t.finish, t.after)
  }

  predicate Invokes<R>(c: Config, w: Wiring, v: View, t: Trial<R>) {
    Admits(w, Observe(c, w, v, t.start, t.before), t.start)
  }

  function CallReply<R>(c: Config, w: Wiring, v: View, t: Trial<R>, hasFallback: bool): Reply<R> {
    if Invokes(c, w, v, t) then Replied(t.outcome) else Refused(hasFallback)
  }

  class CircuitBreaker {
    const config: Config
    const isRedis: bool
    const stateClient: StateStore?
    var localState: CircuitRecord
    var stateStoreDisabledUntil: Time
    var nextRefreshAt: Time

    constructor (config: Config, isRedis: bool, stateClient: StateStore?)
      ensures this.config == config && this.isRedis == isRedis && this.stateClient == stateClient
      ensures fresh(localState)
      ensures stateClient == null || stateClient.payload == None ==> Look() == BOOTED
    {
      this.config, this.isRedis, this.stateClient := config, isRedis, stateClient;
      localState := new CircuitRecord(FRESH);
      stateStoreDisabledUntil := 0.0;
      nextRefreshAt := 0.0;
    }

    ghost function Store(): set<object> {
      if stateClient == null then {} else {stateClient}
    }

    ghost function Footprint(): set<object>
      reads this
    {
      {this, localState} + Store()
    }

    function Wired(): Wiring {
      Wiring(isRedis, stateClient != null)
    }

    /** The abstract view that the specification functions work on. */
    ghost function Look(): View
      reads this, localState, Store()
    {
      View(localState.Value(), stateStoreDisabledUntil, nextRefreshAt,
           if stateClient == null then None else stateClient.payload)
    }

    method LoadState(now: Time, getOk: bool) returns (state: CircuitRecord)
      modifies this
      ensures state == localState && (localState == old(localState) || fresh(localState))
      ensures Look() == Load(Wired(), old(Look()), now, getOk)
    {
      if isRedis {
        return localState;
      }
      if stateClient == null || now < stateStoreDisabledUntil {
        return localState;
      }
      if now < nextRefreshAt {
        return localState;
      }
      if getOk {
        if stateClient.payload.Some? {
          localState := new CircuitRecord(stateClient.payload.value);
        }
        nextRefreshAt := now + REFRESH_INTERVAL;
      } else {
        stateStoreDisabledUntil := now + STORE_DISABLED_FOR;
      }
      return localState;
    }

    method SaveState(state: CircuitRecord, now: Time, setOk: bool)
      modifies this, Store()
      ensures localState == state
      ensures Look() == Save(Wired(), old(Look()), old(state.Value()), now, setOk)
    {
      localState := state;
      nextRefreshAt := now + REFRESH_INTERVAL;
      if isRedis {
        return;
      }
      if stateClient == null || now < stateStoreDisabledUntil {
        return;
      }
      if setOk {
        stateClient.payload := Some(state.Value());
      } else {
        stateStoreDisabledUntil := now + STORE_DISABLED_FOR;
      }
    }

    method CoerceRecoveryState(state: CircuitRecord, now: Time, io: Io) returns (coerced: CircuitRecord)
      requires state == localState
      modifies this, Store()
      ensures coerced == localState && (localState == old(localState) || fresh(localState))
      ensures Look() == CoerceView(config, Wired(), old(Look()), now, io)
    {
      if state.phase != Open {
        return state;
      }
      if now - state.openedAt < config.recovery {
        return state;
      }
      coerced := new CircuitRecord(CircuitState(HalfOpen, state.failureCount,
        if state.windowStartedAt != 0.0 then state.windowStartedAt else now, state.openedAt));
      SaveState(coerced, now, io.writeOk);
    }

    method CurrentState(now: Time, io: Io) returns (phase: Phase)
      modifies this, Store()
      ensures localState == old(localState) || fresh(localState)
      ensures Look() == Observe(config, Wired(), old(Look()), now, io)
      ensures phase == if isRedis && now < stateStoreDisabledUntil && Look().local.phase.Closed? then Open
                       else Look().local.phase
    {
      var state := LoadState(now, io.readOk);
      state := CoerceRecoveryState(state, now, io);
      if isRedis && now < stateStoreDisabledUntil && state.phase == Closed {
        return Open;
      }
      return state.phase;
    }

    method BeforeCall(now: Time, io: Io) returns (admitted: bool)
      modifies this, Store()
      ensures localState == old(localState) || fresh(localState)
      ensures Look() == Observe(config, Wired(), old(Look()), now, io)
      ensures admitted == Admits(Wired(), Look(), now)
    {
      var state := LoadState(now, io.readOk);
      state := CoerceRecoveryState(state, now, io);
      if isRedis && now < stateStoreDisabledUntil {
        return false;
      }
      return state.phase != Open;
    }

    method NoteSuccess(now: Time, io: Io)
      modifies this, Store()
      ensures localState == old(localState) || fresh(localState)
      ensures Look() == RecordSuccess(Wired(), old(Look()), now, io)
    {
      if localState.phase == Closed && localState.failureCount == 0 {
        return;
      }
      var closed := new CircuitRecord(FRESH);
      SaveState(closed, now, io.writeOk);
    }

    /** Mutates the loaded record in place and then saves it. */
    method NoteFailure(now: Time, io: Io)
      modifies this, localState, Store()
      ensures localState == old(localState) || fresh(localState)
      ensures Look() == RecordFailure(config, Wired(), old(Look()), now, io)
    {
      var state := LoadState(now, io.readOk);
      if state.phase == HalfOpen {
        var tripped := new CircuitRecord(Tripped(config, now));
        SaveState(tripped, now, io.writeOk);
        return;
      }
      if state.windowStartedAt == 0.0 || now - state.windowStartedAt > config.window {
        state.failureCount := 0;
        state.windowStartedAt := now;
      }
      state.failureCount := state.failureCount + 1;
      if state.failureCount >= config.threshold {
        state.phase := Open;
        state.openedAt := now;
      } else {
        state.phase := Closed;
      }
      SaveState(state, now, io.writeOk);
    }

    method ForceOpenNow(now: Time, io: Io)
      modifies this, Store()
      ensures localState == old(localState) || fresh(localState)
      ensures Look() == ForceOpen(config, Wired(), old(Look()), now, io)
    {
      var previous := LoadState(now, io.readOk);
      var tripped := new CircuitRecord(Tripped(config, now));
      SaveState(tripped, now, io.writeOk);
    }

    method RecordExternalFailure(now: Time, io: Io)
      modifies this, localState, Store()
      ensures localState == old(localState) || fresh(localState)
      ensures Look() == ExternalFailure(config, Wired(), old(Look()), now, io)
    {
      if localState.phase == Open {
        return;
      }
      NoteFailure(now, io);
    }

    /** `call_sync`: gate, invoke, record. The operation is invoked only when `invoked`. */
    method CallSync<R>(t: Trial<R>, hasFallback: bool) returns (reply: Reply<R>, invoked: bool)
      modifies this, localState, Store()
      ensures localState == old(localState) || fresh(localState)
      ensures Look() == CallView(config, Wired(), old(Look()), t)
      ensures invoked == Invokes(config, Wired(), old(Look()), t)
      ensures reply == CallReply(config, Wired(), old(Look()), t, hasFallback)
      ensures !invoked ==> reply == if hasFallback then FellBack else Raised(CircuitOpen)
      ensures invoked ==> match t.outcome
        case Answered(r) => reply == Returned(r)
        case ConnectionFailed => reply == Raised(ConnectionFailure)
        case ResponseFailed => reply == Raised(ResponseFailure)
        case OtherFailed => reply == Raised(OtherFailure)
    {
      invoked := BeforeCall(t.start, t.before);
      if !invoked {
        return Refused(hasFallback), false;
      }
      if t.outcome.Answered? {
        NoteSuccess(t.finish, t.after);
      } else {
        NoteFailure(t.finish, t.after);
      }
      reply := Replied(t.outcome);
    }
  }
}
