/** The fixed-window rate limiter: one counter per API key and minute, one per tenant and minute. */
module RateLimiter {
  import opened Wrappers

  type ApiKeyId = nat
  type TenantId = nat
  type Time = real

  datatype Counter = ApiKeyRate(key: ApiKeyId, minute: int) | TenantRate(tenant: TenantId, minute: int)

  datatype Cell = Cell(count: nat, expiresAt: Time)

  type Store = map<Counter, Cell>

  const TTL: Time := 120.0
  const DEFAULT_KEY_LIMIT: int := 60

  /** What the checks before the counters make of a request. */
  datatype Gate = PassThrough | Forbid | Counted

  /** `adds`: a POST to the add or prepare-turn path. `configured`: the key's own limit, if set. */
  datatype Request = Request(at: Time, gate: Gate, key: ApiKeyId, tenant: TenantId, configured: Option<int>, adds: bool)

  datatype Verdict = Passed | Forbidden | KeyLimited | TenantLimited

  function Minute(now: Time): int {
    now.Floor / 60
  }

  function KeyLimit(configured: Option<int>): int {
    var limit := if configured.Some? && configured.value != 0 then configured.value else DEFAULT_KEY_LIMIT;
    if limit < 1 then 1 else limit
  }

  /** INCR, and EXPIRE when the counter is new; an expired counter is absent. */
  function Bumped(store: Store, c: Counter, now: Time): Cell {
    if c in store && now < store[c].expiresAt then Cell(store[c].count + 1, store[c].expiresAt)
    else Cell(1, now + TTL)
  }

  function Bump(store: Store, c: Counter, now: Time): Store {
    store[c := Bumped(store, c, now)]
  }

  function Dispatch(store: Store, r: Request, tenantLimit: int): (Store, Verdict) {
    match r.gate
    case PassThrough => (store, Passed)
    case Forbid => (store, Forbidden)
    case Counted =>
      var byKey := ApiKeyRate(r.key, Minute(r.at));
      var store1 := Bump(store, byKey, r.at);
      if store1[byKey].count > KeyLimit(r.configured) then (store1, KeyLimited)
      else if !r.adds then (store1, Passed)
      else
        var byTenant := TenantRate(r.tenant, Minute(r.at));
        var store2 := Bump(store1, byTenant, r.at);
        (store2, if store2[byTenant].count > tenantLimit then TenantLimited else Passed)
  }

  /** Seconds to wait, as told to a limited caller. */
  function RetryAfter(now: Time): int {
    if now.Floor % 60 == 0 then 60 else 60 - now.Floor % 60
  }

  class RateLimiterMiddleware {
    const tenantLimit: int
    var store: Store

    constructor (tenantLimit: int)
      ensures this.tenantLimit == tenantLimit && store == map[]
    {
      this.tenantLimit, store := tenantLimit, map[];
    }

    method Increment(c: Counter, now: Time) returns (count: nat)
      modifies this
      ensures store == Bump(old(store), c, now) && count == store[c].count
    {
      if c in store && now < store[c].expiresAt {
        count := store[c].count + 1;
        store := store[c := store[c].(count := count)];
      } else {
        count := 1;
        store := store[c := Cell(1, now + TTL)];
      }
    }

    method Handle(r: Request) returns (verdict: Verdict)
      modifies this
      ensures (store, verdict) == Dispatch(old(store), r, tenantLimit)
    {
      if r.gate == PassThrough {
        return Passed;
      }
      if r.gate == Forbid {
        return Forbidden;
      }
      var minute := Minute(r.at);
      var keyCount := Increment(ApiKeyRate(r.key, minute), r.at);
      if keyCount > KeyLimit(r.configured) {
        return KeyLimited;
      }
      if r.adds {
        var tenantCount := Increment(TenantRate(r.tenant, minute), r.at);
        if tenantCount > tenantLimit {
          return TenantLimited;
        }
      }
      verdict := Passed;
    }
  }

  // ----- histories -----

  datatype Logged = Logged(r: Request, verdict: Verdict)

  datatype History = History(store: Store, log: seq<Logged>)

  function Play(rs: seq<Request>, tenantLimit: int): History {
    if rs == [] then History(map[], [])
    else
      var before := Play(rs[..|rs| - 1], tenantLimit);
      var (store, verdict) := Dispatch(before.store, rs[|rs| - 1], tenantLimit);
      History(store, before.log + [Logged(rs[|rs| - 1], verdict)])
  }

  function Count(log: seq<Logged>, p: Logged -> bool): nat {
    if log == [] then 0 else Count(log[..|log| - 1], p) + if p(log[|log| - 1]) then 1 else 0
  }

  lemma {:induction false} CountAppend(log: seq<Logged>, l: Logged, p: Logged -> bool)
    ensures Count(log + [l], p) == Count(log, p) + if p(l) then 1 else 0
  {
    assert (log + [l])[..|log|] == log;
  }

  /** Requests counted against a key in a minute. */
  function OnKey(key: ApiKeyId, minute: int): Logged -> bool {
    (l: Logged) => l.r.gate.Counted? && l.r.key == key && Minute(l.r.at) == minute
  }

  /** Those that passed the key's check. */
  function KeyPassed(key: ApiKeyId, minute: int): Logged -> bool {
    (l: Logged) => OnKey(key, minute)(l) && !l.verdict.KeyLimited?
  }

  /** Requests counted against a tenant in a minute: adds that passed their key's check. */
  function OnTenant(tenant: TenantId, minute: int): Logged -> bool {
    (l: Logged) => l.r.gate.Counted? && l.r.adds && l.r.tenant == tenant && Minute(l.r.at) == minute && !l.verdict.KeyLimited?
  }

  /** Adds admitted for a tenant in a minute, whatever the key. */
  function TenantAdmitted(tenant: TenantId, minute: int): Logged -> bool {
    (l: Logged) => OnTenant(tenant, minute)(l) && l.verdict.Passed?
  }

  /** The counter holds `n`, outlives its minute by one minute at least and by two at most. */
  predicate Holds(store: Store, c: Counter, n: nat) {
    if n == 0 then c !in store
    else c in store && store[c].count == n && (60 * (c.minute + 2)) as real <= store[c].expiresAt < (60 * (c.minute + 3)) as real
  }

  ghost predicate Tallies(h: History) {
    && (forall k, m :: Holds(h.store, ApiKeyRate(k, m), Count(h.log, OnKey(k, m))))
    && (forall t, m :: Holds(h.store, TenantRate(t, m), Count(h.log, OnTenant(t, m))))
  }

  /** A bump within the counter's own minute always finds it alive. */
  lemma {:induction false} BumpCounts(store: Store, c: Counter, n: nat, now: Time)
    requires Holds(store, c, n) && Minute(now) == c.minute
    ensures Holds(Bump(store, c, now), c, n + 1)
    ensures n > 0 ==> Bump(store, c, now)[c].expiresAt == store[c].expiresAt
    ensures forall d, k :: d != c && Holds(store, d, k) ==> Holds(Bump(store, c, now), d, k)
  {
    assert now.Floor as real <= now < (now.Floor + 1) as real;
    assert 60 * c.minute <= now.Floor < 60 * c.minute + 60;
  }

  lemma {:induction false} StepTallies(h: History, r: Request, tenantLimit: int)
    requires Tallies(h)
    ensures var (store, verdict) := Dispatch(h.store, r, tenantLimit);
      Tallies(History(store, h.log + [Logged(r, verdict)]))
  {
    var (store, verdict) := Dispatch(h.store, r, tenantLimit);
    var l, m := Logged(r, verdict), Minute(r.at);
    var byKey, byTenant := ApiKeyRate(r.key, m), TenantRate(r.tenant, m);
    forall k, n ensures Holds(store, ApiKeyRate(k, n), Count(h.log + [l], OnKey(k, n))) {
      CountAppend(h.log, l, OnKey(k, n));
      assert Holds(h.store, ApiKeyRate(k, n), Count(h.log, OnKey(k, n)));
      BumpsHold(h, r, tenantLimit, ApiKeyRate(k, n), Count(h.log, OnKey(k, n)));
    }
    forall t, n ensures Holds(store, TenantRate(t, n), Count(h.log + [l], OnTenant(t, n))) {
      CountAppend(h.log, l, OnTenant(t, n));
      assert Holds(h.store, TenantRate(t, n), Count(h.log, OnTenant(t, n)));
      BumpsHold(h, r, tenantLimit, TenantRate(t, n), Count(h.log, OnTenant(t, n)));
    }
  }

  /** One request moves one counter of each kind at most, each by one. */
  lemma {:induction false} BumpsHold(h: History, r: Request, tenantLimit: int, c: Counter, n: nat)
    requires Tallies(h) && Holds(h.store, c, n)
    ensures var (store, verdict) := Dispatch(h.store, r, tenantLimit);
      var bumped := r.gate.Counted? && (if c.ApiKeyRate? then c == ApiKeyRate(r.key, Minute(r.at))
                                      else r.adds && c == TenantRate(r.tenant, Minute(r.at)) && !verdict.KeyLimited?);
      Holds(store, c, if bumped then n + 1 else n)
  {
    if r.gate.Counted? {
      var byKey, byTenant := ApiKeyRate(r.key, Minute(r.at)), TenantRate(r.tenant, Minute(r.at));
      BumpCounts(h.store, byKey, Count(h.log, OnKey(r.key, Minute(r.at))), r.at);
      var store1 := Bump(h.store, byKey, r.at);
      assert Holds(h.store, byTenant, Count(h.log, OnTenant(r.tenant, Minute(r.at))));
      assert Holds(store1, byTenant, Count(h.log, OnTenant(r.tenant, Minute(r.at))));
      BumpCounts(store1, byTenant, Count(h.log, OnTenant(r.tenant, Minute(r.at))), r.at);
      if c == byKey {
        SameTally(h.store, c, n, Count(h.log, OnKey(r.key, Minute(r.at))));
      } else if c == byTenant {
        SameTally(h.store, c, n, Count(h.log, OnTenant(r.tenant, Minute(r.at))));
      }
    }
  }

  lemma {:induction false} SameTally(store: Store, c: Counter, a: nat, b: nat)
    requires Holds(store, c, a) && Holds(store, c, b)
    ensures a == b
  {
  }

  lemma {:induction false} HistoriesTally(rs: seq<Request>, tenantLimit: int)
    ensures Tallies(Play(rs, tenantLimit))
  {
    if rs != [] {
      HistoriesTally(rs[..|rs| - 1], tenantLimit);
      StepTallies(Play(rs[..|rs| - 1], tenantLimit), rs[|rs| - 1], tenantLimit);
    }
  }

  /** The limit a key is meant to have: its own, at least one, or sixty if none is set. */
  predicate HasLimit(configured: Option<int>, limit: int) {
    || (configured.None? && limit == 60)
    || (configured == Some(0) && limit == 60)
    || (configured == Some(limit) && limit >= 1)
    || (configured.Some? && configured.value < 0 && limit == 1)
  }

  predicate SameLimit(rs: seq<Request>, key: ApiKeyId, limit: int) {
    forall i :: 0 <= i < |rs| && rs[i].gate.Counted? && rs[i].key == key ==> HasLimit(rs[i].configured, limit)
  }

  /** The verdict on a request, by the requests counted before it. */
  predicate Answers(log: seq<Logged>, r: Request, tenantLimit: int, limit: int, verdict: Verdict) {
    var m := Minute(r.at);
    if r.gate.PassThrough? then verdict.Passed?
    else if r.gate.Forbid? then verdict.Forbidden?
    else if Count(log, OnKey(r.key, m)) >= limit then verdict.KeyLimited?
    else if r.adds && Count(log, OnTenant(r.tenant, m)) >= tenantLimit then verdict.TenantLimited?
    else verdict.Passed?
  }

  /** After every history the next request is answered by its gate, by what its key had counted
      in its minute, and then by what its tenant had; what is not counted moves no counter. */
  lemma {:induction false} VerdictIsByTally(rs: seq<Request>, tenantLimit: int, r: Request, limit: int)
    requires HasLimit(r.configured, limit)
    ensures var h, h' := Play(rs, tenantLimit), Play(rs + [r], tenantLimit);
      && |h'.log| == |h.log| + 1 && h'.log[..|h.log|] == h.log && h'.log[|h.log|].r == r
      && Answers(h.log, r, tenantLimit, limit, h'.log[|h.log|].verdict)
      && (r.gate.Counted? || h'.store == h.store)
  {
    assert (rs + [r])[..|rs|] == rs;
    HistoriesTally(rs, tenantLimit);
    var h, m := Play(rs, tenantLimit), Minute(r.at);
    var (store, verdict) := Dispatch(h.store, r, tenantLimit);
    assert Play(rs + [r], tenantLimit) == History(store, h.log + [Logged(r, verdict)]);
    if r.gate.Counted? {
      BumpCounts(h.store, ApiKeyRate(r.key, m), Count(h.log, OnKey(r.key, m)), r.at);
      if r.adds && !verdict.KeyLimited? {
        BumpsHold(h, r, tenantLimit, TenantRate(r.tenant, m), Count(h.log, OnTenant(r.tenant, m)));
      }
    }
  }

  /** Of `N` requests on a key in a minute exactly `min(N, limit)` pass the key's check. */
  lemma {:induction false} KeyPassesExactly(rs: seq<Request>, tenantLimit: int, key: ApiKeyId, limit: int, minute: int)
    requires SameLimit(rs, key, limit) && limit >= 1
    ensures var log := Play(rs, tenantLimit).log;
      Count(log, KeyPassed(key, minute)) == Min(Count(log, OnKey(key, minute)), limit)
  {
    if rs != [] {
      var front, r := rs[..|rs| - 1], rs[|rs| - 1];
      KeyPassesExactly(front, tenantLimit, key, limit, minute);
      HistoriesTally(front, tenantLimit);
      var h := Play(front, tenantLimit);
      var (store, verdict) := Dispatch(h.store, r, tenantLimit);
      CountAppend(h.log, Logged(r, verdict), OnKey(key, minute));
      CountAppend(h.log, Logged(r, verdict), KeyPassed(key, minute));
      if OnKey(key, minute)(Logged(r, verdict)) {
        assert Holds(h.store, ApiKeyRate(key, minute), Count(h.log, OnKey(key, minute)));
        BumpCounts(h.store, ApiKeyRate(key, minute), Count(h.log, OnKey(key, minute)), r.at);
      }
    }
  }

  /** Of the adds of a tenant that pass their keys' checks in a minute, over all keys,
      exactly the first `tenantLimit` are admitted. */
  lemma {:induction false} TenantAdmitsExactly(rs: seq<Request>, tenantLimit: int, tenant: TenantId, minute: int)
    ensures var log := Play(rs, tenantLimit).log;
      Count(log, TenantAdmitted(tenant, minute))
        == Min(Count(log, OnTenant(tenant, minute)), if tenantLimit < 0 then 0 else tenantLimit)
  {
    if rs != [] {
      var front, r := rs[..|rs| - 1], rs[|rs| - 1];
      TenantAdmitsExactly(front, tenantLimit, tenant, minute);
      HistoriesTally(front, tenantLimit);
      var h := Play(front, tenantLimit);
      var (store, verdict) := Dispatch(h.store, r, tenantLimit);
      CountAppend(h.log, Logged(r, verdict), OnTenant(tenant, minute));
      CountAppend(h.log, Logged(r, verdict), TenantAdmitted(tenant, minute));
      if OnTenant(tenant, minute)(Logged(r, verdict)) {
        var n := Count(h.log, OnTenant(tenant, minute));
        assert Holds(h.store, TenantRate(tenant, minute), n);
        BumpsHold(h, r, tenantLimit, TenantRate(tenant, minute), n);
      }
    }
  }

  lemma {:induction false} CountIsBounded(log: seq<Logged>, p: Logged -> bool, q: Logged -> bool, r: Logged -> bool)
    requires forall l :: p(l) ==> q(l) || r(l)
    ensures Count(log, p) <= Count(log, q) + Count(log, r)
  {
    if log != [] {
      CountIsBounded(log[..|log| - 1], p, q, r);
    }
  }

  /** Requests of a key that passed its check in the minute-long interval from `start`. */
  function PassedFrom(key: ApiKeyId, start: Time): Logged -> bool {
    (l: Logged) => l.r.gate.Counted? && l.r.key == key && !l.verdict.KeyLimited? && start <= l.r.at < start + 60.0
  }

  /** In any interval of sixty seconds, aligned or not, at most twice the limit pass. */
  lemma {:induction false} AnyMinutePassesAtMostTwice(rs: seq<Request>, tenantLimit: int, key: ApiKeyId, limit: int, start: Time)
    requires SameLimit(rs, key, limit) && limit >= 1
    ensures Count(Play(rs, tenantLimit).log, PassedFrom(key, start)) <= 2 * limit
  {
    var log, m := Play(rs, tenantLimit).log, Minute(start);
    forall l | PassedFrom(key, start)(l) ensures KeyPassed(key, m)(l) || KeyPassed(key, m + 1)(l) {
      MinuteAfter(start, l.r.at);
      assert OnKey(key, Minute(l.r.at))(l);
      assert KeyPassed(key, Minute(l.r.at))(l);
    }
    CountIsBounded(log, PassedFrom(key, start), KeyPassed(key, m), KeyPassed(key, m + 1));
    KeyPassesExactly(rs, tenantLimit, key, limit, m);
    KeyPassesExactly(rs, tenantLimit, key, limit, m + 1);
  }

  lemma {:induction false} MinuteAfter(a: Time, b: Time)
    requires a <= b < a + 60.0
    ensures Minute(a) <= Minute(b) <= Minute(a) + 1
  {
    assert a.Floor <= b.Floor <= a.Floor + 60;
  }

  /** A caller that waits as told is in the next minute, and not a second late: its key's
      counter starts afresh. */
  lemma {:induction false} RetryLandsInNextMinute(now: Time)
    ensures 1 <= RetryAfter(now) <= 60
    ensures Minute(now + RetryAfter(now) as real) == Minute(now) + 1
    ensures (now.Floor + RetryAfter(now)) % 60 == 0
  {
    assert (now + RetryAfter(now) as real).Floor == now.Floor + RetryAfter(now);
  }
}
