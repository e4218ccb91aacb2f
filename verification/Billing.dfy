/** Plan limits by tier. */
module PlanLimits {
  import opened Wrappers

  datatype Tier = Free | Starter | Growth | Scale | Enterprise
  datatype OveragePolicy = Block | Warn

  /** None means unlimited. */
  datatype Limits = Limits(
    monthlyCalls: Option<nat>, monthlyTokens: Option<nat>, writeCalls: Option<nat>, readCalls: Option<nat>,
    ratePerUserPerMinute: Option<nat>, overage: OveragePolicy, alertThreshold: real)

  function GetLimits(tier: Tier): Limits {
    match tier
    case Free => Limits(Some(5_000), Some(2_000_000), Some(5_000), None, Some(3), Block, 0.8)
    case Starter => Limits(Some(50_000), Some(25_000_000), Some(50_000), None, Some(10), Warn, 0.8)
    case Growth => Limits(Some(500_000), Some(250_000_000), Some(500_000), None, Some(30), Warn, 0.8)
    case Scale => Limits(Some(1_000_000), Some(500_000_000), Some(1_000_000), None, Some(80), Warn, 0.9)
    case Enterprise => Limits(None, None, None, None, None, Warn, 0.9)
  }

  /** `b` allows more than `a`; None is without limit. */
  predicate More(a: Option<nat>, b: Option<nat>) {
    a.Some? && (b.None? || a.value < b.value)
  }

  predicate Higher(a: Tier, b: Tier) {
    match b
    case Free => false
    case Starter => a == Free
    case Growth => a == Free || a == Starter
    case Scale => a != Scale && a != Enterprise
    case Enterprise => a != Enterprise
  }

  /** A higher tier allows more of everything that is limited: calls, of which only writes are,
      tokens and the rate; Free alone blocks what exceeds it. */
  lemma {:induction false} HigherTiersAllowMore(a: Tier, b: Tier)
    requires Higher(a, b)
    ensures var low, high := GetLimits(a), GetLimits(b);
      && More(low.monthlyCalls, high.monthlyCalls) && More(low.monthlyTokens, high.monthlyTokens)
      && More(low.ratePerUserPerMinute, high.ratePerUserPerMinute) && low.alertThreshold <= high.alertThreshold
      && low.writeCalls == low.monthlyCalls && low.readCalls.None? && high.writeCalls == high.monthlyCalls && high.readCalls.None?
      && high.overage == Warn && (low.overage == Block <==> a == Free)
  {
  }
}

/** The billing tables and the handlers that change them, each one transaction. */
module Billing {
  import opened Wrappers
  import opened PlanLimits

  type TenantId = nat
  type SubscriptionId = string
  type EventId = string
  type PlanId = string
  /** Seconds. */
  type Time = int

  datatype Interval = Monthly | Annual
  datatype Currency = Inr | Usd
  datatype Status = Created | Authenticated | Active | OtherStatus(name: string)

  datatype Subscription = Subscription(
    tenant: TenantId, tier: Tier, interval: Interval, currency: Currency, status: Status,
    customer: Option<string>, currentStart: Option<Time>, currentEnd: Option<Time>, cancelAtPeriodEnd: bool,
    createdAt: Time, checkoutUrl: string)

  datatype Budget = Budget(tier: Tier, limits: Limits)

  datatype Database = Database(
    receipts: set<EventId>,
    subscriptions: map<SubscriptionId, Subscription>,
    budgets: map<TenantId, Budget>,
    tenants: map<TenantId, Tier>)

  datatype Kind = Activated | Charged | Cancelled | Completed | Expired | Halted | OtherKind

  predicate Activation(k: Kind) { k.Activated? || k.Charged? }
  predicate Terminal(k: Kind) { k.Cancelled? || k.Completed? || k.Expired? || k.Halted? }
  predicate Current(s: Status) { s.Authenticated? || s.Active? }
  predicate Paid(t: Tier) { t.Starter? || t.Growth? || t.Scale? }

  /** A delivery, signature already checked. Absent fields are None. */
  datatype Webhook = Webhook(
    id: EventId, kind: Kind, subscription: Option<SubscriptionId>, plan: Option<PlanId>, status: Option<Status>,
    customer: Option<string>, currentStart: Option<Time>, currentEnd: Option<Time>, scheduledChanges: bool)

  type Plans = map<(Tier, Interval, Currency), PlanId>

  datatype Response = Received | NotReady | PaidPlanRequired | PlanNotConfigured | PlanMismatch

  // ----- the webhook as a function on the tables -----

  function Updated(s: Subscription, e: Webhook): Subscription {
    s.(status := if e.status.Some? then e.status.value else s.status,
       customer := if e.customer.Some? then e.customer else s.customer,
       currentStart := e.currentStart, currentEnd := e.currentEnd, cancelAtPeriodEnd := e.scheduledChanges)
  }

  predicate NewerCurrent(subs: map<SubscriptionId, Subscription>, id: SubscriptionId, s: Subscription) {
    exists other :: other in subs && other != id && subs[other].tenant == s.tenant
      && Current(subs[other].status) && subs[other].createdAt > s.createdAt
  }

  function WithTier(db: Database, t: TenantId, tier: Tier): Database {
    db.(budgets := if t in db.budgets then db.budgets[t := Budget(tier, GetLimits(tier))] else db.budgets,
        tenants := if t in db.tenants then db.tenants[t := tier] else db.tenants)
  }

  function Refusal(plans: Plans, db: Database, e: Webhook): Option<Response> {
    if e.subscription.None? || e.subscription.value !in db.subscriptions then Some(NotReady)
    else
      var s := db.subscriptions[e.subscription.value];
      var key := (s.tier, s.interval, s.currency);
      if !Paid(s.tier) then Some(PaidPlanRequired)
      else if key !in plans then Some(PlanNotConfigured)
      else if e.plan != Some(plans[key]) then Some(PlanMismatch)
      else None
  }

  /** A delivery takes effect if it is not yet receipted and nothing refuses it. */
  predicate Commits(plans: Plans, db: Database, e: Webhook) {
    e.id !in db.receipts && Refusal(plans, db, e).None?
  }

  function Effect(db: Database, e: Webhook): Database
    requires e.subscription.Some? && e.subscription.value in db.subscriptions
  {
    var id := e.subscription.value;
    var s := Updated(db.subscriptions[id], e);
    var db1 := db.(receipts := db.receipts + {e.id}, subscriptions := db.subscriptions[id := s]);
    if NewerCurrent(db1.subscriptions, id, s) then db1
    else if Activation(e.kind) then WithTier(db1, s.tenant, s.tier)
    else if Terminal(e.kind) then WithTier(db1, s.tenant, Free)
    else db1
  }

  function Deliver(plans: Plans, db: Database, e: Webhook): Database {
    if Commits(plans, db, e) then Effect(db, e) else db
  }

  function Answer(plans: Plans, db: Database, e: Webhook): Response {
    if e.id in db.receipts || Refusal(plans, db, e).None? then Received else Refusal(plans, db, e).value
  }

  // ----- checkout and its verification -----

  datatype Provided = Provided(id: SubscriptionId, customer: Option<string>, status: Option<Status>, url: string)

  /** `provided` is what the provider would create, or None if it fails. */
  datatype CheckoutRequest = CheckoutRequest(
    tenant: TenantId, tier: Tier, interval: Interval, currency: Currency, now: Time, provided: Option<Provided>)

  const REUSABLE_FOR: Time := 30 * 60

  predicate HasCurrent(db: Database, t: TenantId) {
    exists id :: id in db.subscriptions && db.subscriptions[id].tenant == t && Current(db.subscriptions[id].status)
  }

  predicate Reusable(s: Subscription, r: CheckoutRequest) {
    && s.tenant == r.tenant && s.tier == r.tier && s.interval == r.interval && s.currency == r.currency
    && s.status.Created? && s.createdAt >= r.now - REUSABLE_FOR
  }

  predicate HasReusable(db: Database, r: CheckoutRequest) {
    exists id :: id in db.subscriptions && Reusable(db.subscriptions[id], r)
  }

  /** The most recent reusable subscription. */
  predicate LatestReusable(db: Database, r: CheckoutRequest, id: SubscriptionId) {
    && id in db.subscriptions && Reusable(db.subscriptions[id], r)
    && forall other :: other in db.subscriptions && Reusable(db.subscriptions[other], r) ==>
         db.subscriptions[other].createdAt <= db.subscriptions[id].createdAt
  }

  function NewSubscription(r: CheckoutRequest, p: Provided): Subscription {
    Subscription(r.tenant, r.tier, r.interval, r.currency, if p.status.Some? then p.status.value else Created,
                 p.customer, None, None, false, r.now, p.url)
  }

  /** A new row is inserted only for a tenant with a budget, without a current or reusable
      subscription; a provider id already stored violates the unique constraint. */
  predicate Inserts(db: Database, r: CheckoutRequest) {
    && r.tenant in db.budgets && !HasCurrent(db, r.tenant) && !HasReusable(db, r)
    && r.provided.Some? && r.provided.value.id !in db.subscriptions
  }

  function Checkout(db: Database, r: CheckoutRequest): Database {
    if Inserts(db, r)
    then db.(subscriptions := db.subscriptions[r.provided.value.id := NewSubscription(r, r.provided.value)])
    else db
  }

  function Verify(db: Database, t: TenantId, id: SubscriptionId, signatureOk: bool): Database {
    if id in db.subscriptions && db.subscriptions[id].tenant == t && signatureOk && db.subscriptions[id].status.Created?
    then db.(subscriptions := db.subscriptions[id := db.subscriptions[id].(status := Authenticated)])
    else db
  }

  /** `apply_plan_limits` writes the budget row and leaves the tenant row alone. */
  function WithLimits(db: Database, t: TenantId, tier: Tier): Database {
    db.(budgets := if t in db.budgets then db.budgets[t := Budget(tier, GetLimits(tier))] else db.budgets)
  }

  /** What a caller is offered: a subscription as asked for, with a link to pay it. */
  predicate Suits(s: Subscription, r: CheckoutRequest) {
    s.tenant == r.tenant && s.tier == r.tier && s.interval == r.interval && s.currency == r.currency && s.checkoutUrl != ""
  }

  datatype CheckoutReply = Offered(id: SubscriptionId) | BillingNotReady | AlreadyActive | ProviderFailed | Conflict | NoUrl

  datatype VerifyReply = Verified(tier: Tier) | NotFound | BadSignature

  // ----- the handlers -----

  class BillingStore {
    var receipts: set<EventId>
    var subscriptions: map<SubscriptionId, Subscription>
    var budgets: map<TenantId, Budget>
    var tenants: map<TenantId, Tier>

    function Tables(): Database
      reads this
    {
      Database(receipts, subscriptions, budgets, tenants)
    }

    method Rollback(to: Database)
      modifies this
      ensures Tables() == to
    {
      receipts, subscriptions, budgets, tenants := to.receipts, to.subscriptions, to.budgets, to.tenants;
    }

    method SetTier(t: TenantId, tier: Tier)
      modifies this
      ensures Tables() == WithTier(old(Tables()), t, tier)
    {
      if t in budgets {
        budgets := budgets[t := Budget(tier, GetLimits(tier))];
      }
      if t in tenants {
        tenants := tenants[t := tier];
      }
    }

    method ReceiveWebhook(plans: Plans, e: Webhook) returns (response: Response)
      modifies this
      ensures Tables() == Deliver(plans, old(Tables()), e)
      ensures response == Answer(plans, old(Tables()), e)
    {
      if e.id in receipts {
        return Received;
      }
      var begun := Tables();
      receipts := receipts + {e.id};
      if e.subscription.None? || e.subscription.value !in subscriptions {
        Rollback(begun);
        return NotReady;
      }
      var id := e.subscription.value;
      var s := subscriptions[id];
      if !Paid(s.tier) {
        Rollback(begun);
        return PaidPlanRequired;
      }
      if (s.tier, s.interval, s.currency) !in plans {
        Rollback(begun);
        return PlanNotConfigured;
      }
      if e.plan != Some(plans[(s.tier, s.interval, s.currency)]) {
        Rollback(begun);
        return PlanMismatch;
      }
      s := s.(status := if e.status.Some? then e.status.value else s.status);
      s := s.(customer := if e.customer.Some? then e.customer else s.customer);
      s := s.(currentStart := e.currentStart, currentEnd := e.currentEnd, cancelAtPeriodEnd := e.scheduledChanges);
      subscriptions := subscriptions[id := s];
      var newerCurrent := false;
      if Activation(e.kind) || Terminal(e.kind) {
        newerCurrent := NewerCurrent(subscriptions, id, s);
      }
      if Activation(e.kind) {
        if !newerCurrent {
          SetTier(s.tenant, s.tier);
        }
      } else if Terminal(e.kind) && !newerCurrent {
        SetTier(s.tenant, Free);
      }
      response := Received;
    }

    method CreateCheckout(r: CheckoutRequest) returns (reply: CheckoutReply)
      modifies this
      ensures Tables() == Checkout(old(Tables()), r)
      ensures reply.BillingNotReady? <==> r.tenant !in old(budgets)
      ensures reply.AlreadyActive? <==> r.tenant in old(budgets) && HasCurrent(old(Tables()), r.tenant)
      ensures Inserts(old(Tables()), r) && r.provided.value.url != "" ==> reply == Offered(r.provided.value.id)
      ensures reply.Offered? && !Inserts(old(Tables()), r) ==> LatestReusable(old(Tables()), r, reply.id)
      ensures reply.Offered? ==> reply.id in subscriptions && Suits(subscriptions[reply.id], r)
      ensures reply.Offered? && reply.id in old(subscriptions) ==>
        subscriptions[reply.id].status == Created && subscriptions[reply.id].createdAt >= r.now - 1800
      ensures reply.ProviderFailed? || reply.Conflict? ==> !HasReusable(old(Tables()), r) && !Inserts(old(Tables()), r)
    {
      if r.tenant !in budgets {
        return BillingNotReady;
      }
      if HasCurrent(Tables(), r.tenant) {
        return AlreadyActive;
      }
      var id;
      if HasReusable(Tables(), r) {
        LatestReusableExists(Tables(), r);
        id :| LatestReusable(Tables(), r, id);
      } else {
        if r.provided.None? {
          return ProviderFailed;
        }
        id := r.provided.value.id;
        if id in subscriptions {
          return Conflict;
        }
        subscriptions := subscriptions[id := NewSubscription(r, r.provided.value)];
      }
      if subscriptions[id].checkoutUrl == "" {
        return NoUrl;
      }
      reply := Offered(id);
    }

    method VerifyCheckout(t: TenantId, id: SubscriptionId, signatureOk: bool) returns (reply: VerifyReply)
      modifies this
      ensures Tables() == Verify(old(Tables()), t, id, signatureOk)
      ensures !signatureOk ==> Tables() == old(Tables())
      ensures reply ==
        if id !in old(subscriptions) || old(subscriptions)[id].tenant != t then NotFound
        else if !signatureOk then BadSignature
        else Verified(old(subscriptions)[id].tier)
    {
      if id !in subscriptions || subscriptions[id].tenant != t {
        return NotFound;
      }
      if !signatureOk {
        return BadSignature;
      }
      if subscriptions[id].status == Created {
        subscriptions := subscriptions[id := subscriptions[id].(status := Authenticated)];
      }
      reply := Verified(subscriptions[id].tier);
    }

    method ApplyPlanLimits(t: TenantId, tier: Tier)
      modifies this
      ensures Tables() == WithLimits(old(Tables()), t, tier)
    {
      if t in budgets {
        budgets := budgets[t := Budget(tier, GetLimits(tier))];
      }
    }
  }

  lemma {:induction false} LatestReusableExists(db: Database, r: CheckoutRequest)
    requires HasReusable(db, r)
    ensures exists id :: LatestReusable(db, r, id)
  {
    var candidates := set id | id in db.subscriptions && Reusable(db.subscriptions[id], r);
    var some :| some in db.subscriptions && Reusable(db.subscriptions[some], r);
    assert some in candidates;
    var best := LatestAmong(db, candidates);
    assert LatestReusable(db, r, best);
  }

  lemma {:induction false} LatestAmong(db: Database, candidates: set<SubscriptionId>) returns (best: SubscriptionId)
    requires candidates != {} && candidates <= db.subscriptions.Keys
    ensures best in candidates
    ensures forall id :: id in candidates ==> db.subscriptions[id].createdAt <= db.subscriptions[best].createdAt
  {
    var first :| first in candidates;
    var rest := candidates - {first};
    assert forall id :: id in candidates <==> id == first || id in rest;
    if rest == {} {
      best := first;
    } else {
      var other := LatestAmong(db, rest);
      best := if db.subscriptions[other].createdAt > db.subscriptions[first].createdAt then other else first;
    }
    forall id | id in candidates ensures db.subscriptions[id].createdAt <= db.subscriptions[best].createdAt {
      assert id == first || id in rest;
    }
  }
}

/** Whole histories of deliveries, checkouts and verifications. */
module BillingRuns {
  import opened Wrappers
  import opened PlanLimits
  import opened Billing

  datatype Step =
    | Delivery(e: Webhook)
    | NewCheckout(r: CheckoutRequest)
    | Verification(t: TenantId, id: SubscriptionId, signatureOk: bool)

  function Apply(plans: Plans, db: Database, step: Step): Database {
    match step
    case Delivery(e) => Deliver(plans, db, e)
    case NewCheckout(r) => Checkout(db, r)
    case Verification(t, id, ok) => Verify(db, t, id, ok)
  }

  function Play(plans: Plans, db: Database, steps: seq<Step>): Database
    decreases |steps|
  {
    if steps == [] then db else Play(plans, Apply(plans, db, steps[0]), steps[1..])
  }

  // ----- exactly once -----

  predicate TakesEffect(plans: Plans, db: Database, step: Step) {
    step.Delivery? ==> Commits(plans, db, step.e)
  }

  /** The history without the deliveries that were duplicates or were rolled back. */
  function Effective(plans: Plans, db: Database, steps: seq<Step>): seq<Step>
    decreases |steps|
  {
    if steps == [] then []
    else
      var rest := Effective(plans, Apply(plans, db, steps[0]), steps[1..]);
      if TakesEffect(plans, db, steps[0]) then [steps[0]] + rest else rest
  }

  function DeliveredIds(steps: seq<Step>): set<EventId> {
    set s | s in steps && s.Delivery? :: s.e.id
  }

  /** No event is delivered twice, nor one already receipted. */
  predicate OncePerEvent(receipts: set<EventId>, steps: seq<Step>) {
    && (forall i :: 0 <= i < |steps| && steps[i].Delivery? ==> steps[i].e.id !in receipts)
    && (forall i, j :: 0 <= i < j < |steps| && steps[i].Delivery? && steps[j].Delivery? ==> steps[i].e.id != steps[j].e.id)
  }

  /** A step that takes no effect changes nothing; one that does adds its receipt. */
  lemma {:induction false} ReceiptsOfStep(plans: Plans, db: Database, step: Step)
    ensures !TakesEffect(plans, db, step) ==> Apply(plans, db, step) == db
    ensures TakesEffect(plans, db, step) ==>
      && Apply(plans, db, step).receipts == db.receipts + (if step.Delivery? then {step.e.id} else {})
      && (step.Delivery? ==> step.e.id !in db.receipts)
  {
  }

  lemma {:induction false} Prepending(receipts: set<EventId>, step: Step, rest: seq<Step>)
    requires OncePerEvent(receipts + (if step.Delivery? then {step.e.id} else {}), rest)
    requires step.Delivery? ==> step.e.id !in receipts
    ensures OncePerEvent(receipts, [step] + rest)
    ensures DeliveredIds([step] + rest) == (if step.Delivery? then {step.e.id} else {}) + DeliveredIds(rest)
  {
    assert forall s :: s in [step] + rest <==> s == step || s in rest;
  }

  /** Any history ends as the history of its committed deliveries alone does; those are
      each delivered once, and the receipts are exactly theirs. */
  lemma {:induction false} ProcessedExactlyOnce(plans: Plans, db: Database, steps: seq<Step>)
    ensures var kept := Effective(plans, db, steps);
      && Play(plans, db, steps) == Play(plans, db, kept)
      && OncePerEvent(db.receipts, kept)
      && Play(plans, db, steps).receipts == db.receipts + DeliveredIds(kept)
    decreases |steps|
  {
    if steps != [] {
      var next := Apply(plans, db, steps[0]);
      var rest := Effective(plans, next, steps[1..]);
      ReceiptsOfStep(plans, db, steps[0]);
      ProcessedExactlyOnce(plans, next, steps[1..]);
      if TakesEffect(plans, db, steps[0]) {
        Prepending(db.receipts, steps[0], rest);
        assert ([steps[0]] + rest)[1..] == rest;
      }
    }
  }

  // ----- rows mirror the provider -----

  predicate NoDelivery(steps: seq<Step>, id: SubscriptionId) {
    forall i :: 0 <= i < |steps| && steps[i].Delivery? ==> steps[i].e.subscription != Some(id)
  }

  /** Row `id` is `reported`, or, if that was only created, its checkout was verified since. */
  predicate Mirrors(db: Database, id: SubscriptionId, reported: Subscription) {
    && id in db.subscriptions
    && (db.subscriptions[id] == reported
        || (reported.status.Created? && db.subscriptions[id] == reported.(status := Authenticated)))
  }

  lemma {:induction false} StepKeepsMirror(plans: Plans, db: Database, step: Step, id: SubscriptionId, reported: Subscription)
    requires Mirrors(db, id, reported) && NoDelivery([step], id)
    ensures Mirrors(Apply(plans, db, step), id, reported)
  {
    assert [step][0] == step;
  }

  lemma {:induction false} MirrorStays(plans: Plans, db: Database, steps: seq<Step>, id: SubscriptionId, reported: Subscription)
    requires Mirrors(db, id, reported) && NoDelivery(steps, id)
    ensures Mirrors(Play(plans, db, steps), id, reported)
    decreases |steps|
  {
    if steps != [] {
      assert NoDelivery([steps[0]], id);
      StepKeepsMirror(plans, db, steps[0], id, reported);
      MirrorStays(plans, Apply(plans, db, steps[0]), steps[1..], id, reported);
    }
  }

  /** Whatever checkouts, verifications, duplicates and refused deliveries follow it, the last
      committed delivery of a subscription is what its whole row says. */
  lemma {:induction false} RowMirrorsLastDelivery(plans: Plans, db: Database, e: Webhook, after: seq<Step>, id: SubscriptionId)
    requires Commits(plans, db, e) && e.subscription == Some(id)
    requires NoDelivery(Effective(plans, Deliver(plans, db, e), after), id)
    ensures Mirrors(Play(plans, Deliver(plans, db, e), after), id, Updated(db.subscriptions[id], e))
  {
    var next := Deliver(plans, db, e);
    ProcessedExactlyOnce(plans, next, after);
    assert Mirrors(next, id, Updated(db.subscriptions[id], e));
    MirrorStays(plans, next, Effective(plans, next, after), id, Updated(db.subscriptions[id], e));
  }

  /** The fields of row `s` after a delivery of `e`: those it reports are as reported, the period
      and the pending cancellation even if it is silent about them, the others as before; a row
      reported as created may have been verified since. */
  predicate ReportedBy(e: Webhook, s: Subscription, now: Subscription) {
    var status := if e.status.Some? then e.status.value else s.status;
    && (now.status == status || (status == Created && now.status == Authenticated))
    && (e.customer.Some? ==> now.customer == e.customer) && (e.customer.None? ==> now.customer == s.customer)
    && now.currentStart == e.currentStart && now.currentEnd == e.currentEnd && now.cancelAtPeriodEnd == e.scheduledChanges
    && now.tenant == s.tenant && now.tier == s.tier && now.interval == s.interval && now.currency == s.currency
    && now.createdAt == s.createdAt && now.checkoutUrl == s.checkoutUrl
  }

  /** So in every later state the row reads field by field as the last committed delivery said. */
  lemma {:induction false} RowReadsAsReported(plans: Plans, db: Database, e: Webhook, after: seq<Step>, id: SubscriptionId)
    requires Commits(plans, db, e) && e.subscription == Some(id)
    requires NoDelivery(Effective(plans, Deliver(plans, db, e), after), id)
    ensures var end := Play(plans, Deliver(plans, db, e), after);
      id in end.subscriptions && ReportedBy(e, db.subscriptions[id], end.subscriptions[id])
  {
    RowMirrorsLastDelivery(plans, db, e, after, id);
  }

  // ----- which deliveries are accepted -----

  /** The delivery is of a stored subscription to a paid plan, and names that plan. */
  predicate Acceptable(plans: Plans, db: Database, e: Webhook) {
    && e.subscription.Some? && e.subscription.value in db.subscriptions
    && var s := db.subscriptions[e.subscription.value];
      && s.tier != Free && s.tier != Enterprise
      && (s.tier, s.interval, s.currency) in plans && e.plan == Some(plans[(s.tier, s.interval, s.currency)])
  }

  /** A delivery is answered as received exactly if its receipt is stored afterwards, which it
      is exactly if it was before or the delivery is acceptable; a refused one changes nothing,
      and its answer gives the first reason. */
  lemma {:induction false} ReceivedIffReceipted(plans: Plans, db: Database, e: Webhook)
    ensures Answer(plans, db, e) == Received <==> e.id in Deliver(plans, db, e).receipts
    ensures e.id in Deliver(plans, db, e).receipts <==> e.id in db.receipts || Acceptable(plans, db, e)
    ensures Answer(plans, db, e) != Received ==> Deliver(plans, db, e) == db
    ensures Answer(plans, db, e) == NotReady <==>
      e.id !in db.receipts && (e.subscription.None? || e.subscription.value !in db.subscriptions)
    ensures Answer(plans, db, e) == PaidPlanRequired ==>
      db.subscriptions[e.subscription.value].tier == Free || db.subscriptions[e.subscription.value].tier == Enterprise
    ensures Answer(plans, db, e) == PlanNotConfigured ==>
      var s := db.subscriptions[e.subscription.value];
      (s.tier, s.interval, s.currency) !in plans
    ensures Answer(plans, db, e) == PlanMismatch ==>
      var s := db.subscriptions[e.subscription.value];
      (s.tier, s.interval, s.currency) in plans && e.plan != Some(plans[(s.tier, s.interval, s.currency)])
  {
  }

  // ----- what checkouts and verifications do -----

  /** A checkout inserts one row, exactly if the tenant has a budget, no current subscription,
      none created for the same plan in the last half hour and still open, and the provider
      creates one that is not stored yet; the row is the one asked for. */
  lemma {:induction false} CheckoutInserts(db: Database, r: CheckoutRequest)
    ensures var next := Checkout(db, r);
      if r.tenant in db.budgets && r.provided.Some? && r.provided.value.id !in db.subscriptions
         && forall id :: id in db.subscriptions && db.subscriptions[id].tenant == r.tenant ==>
              var s := db.subscriptions[id];
              && s.status != Authenticated && s.status != Active
              && !(s.status == Created && s.tier == r.tier && s.interval == r.interval && s.currency == r.currency
                   && s.createdAt >= r.now - 1800)
      then
        var p := r.provided.value;
        next == db.(subscriptions := db.subscriptions[p.id := Subscription(
          r.tenant, r.tier, r.interval, r.currency, if p.status.Some? then p.status.value else Created,
          p.customer, None, None, false, r.now, p.url)])
      else next == db
  {
  }

  /** A verification changes nothing but the status of the tenant's own row, from created to
      authenticated, and that only with a good signature. */
  lemma {:induction false} VerificationAuthenticates(db: Database, t: TenantId, id: SubscriptionId, signatureOk: bool)
    ensures var next := Verify(db, t, id, signatureOk);
      && (!signatureOk ==> next == db)
      && (next != db <==> signatureOk && id in db.subscriptions && db.subscriptions[id].tenant == t && db.subscriptions[id].status == Created)
      && (next != db ==> next == db.(subscriptions := db.subscriptions[id := db.subscriptions[id].(status := Authenticated)]))
  {
    if id in db.subscriptions {
      assert db.subscriptions[id].status == Created ==>
        db.subscriptions[id := db.subscriptions[id].(status := Authenticated)][id] != db.subscriptions[id];
    }
  }

  // ----- tiers and limits agree -----

  predicate Agreeing(db: Database) {
    forall t :: t in db.budgets ==>
      && db.budgets[t].limits == GetLimits(db.budgets[t].tier)
      && (t in db.tenants ==> db.tenants[t] == db.budgets[t].tier)
  }

  lemma {:induction false} TierKeepsAgreement(db: Database, t: TenantId, tier: Tier)
    requires Agreeing(db)
    ensures Agreeing(WithTier(db, t, tier))
  {
  }

  lemma {:induction false} StepKeepsAgreement(plans: Plans, db: Database, step: Step)
    requires Agreeing(db)
    ensures Agreeing(Apply(plans, db, step))
  {
    if step.Delivery? && Commits(plans, db, step.e) {
      var id := step.e.subscription.value;
      var s := Updated(db.subscriptions[id], step.e);
      var db1 := db.(receipts := db.receipts + {step.e.id}, subscriptions := db.subscriptions[id := s]);
      TierKeepsAgreement(db1, s.tenant, s.tier);
      TierKeepsAgreement(db1, s.tenant, Free);
    }
  }

  /** Every history keeps budget tier, tenant tier and limit columns in agreement. */
  lemma {:induction false} HistoriesKeepAgreement(plans: Plans, db: Database, steps: seq<Step>)
    requires Agreeing(db)
    ensures Agreeing(Play(plans, db, steps))
    decreases |steps|
  {
    if steps != [] {
      StepKeepsAgreement(plans, db, steps[0]);
      HistoriesKeepAgreement(plans, Apply(plans, db, steps[0]), steps[1..]);
    }
  }

  /** `apply_plan_limits` does so only for a tenant already on that tier. */
  lemma {:induction false} PlanLimitsKeepAgreement(db: Database, t: TenantId, tier: Tier)
    requires Agreeing(db)
    ensures Agreeing(WithLimits(db, t, tier)) <==> t !in db.budgets || t !in db.tenants || db.tenants[t] == tier
  {
    var after := WithLimits(db, t, tier);
    if t in db.budgets {
      assert t in after.budgets && after.budgets[t].tier == tier;
    } else {
      assert after == db;
    }
  }

  /** A tenant in agreement whose budget `apply_plan_limits` moves to a tier the tenant is not on. */
  lemma {:induction false} PlanLimitsBreakAgreement(t: TenantId)
    ensures var db := Database({}, map[], map[t := Budget(Free, GetLimits(Free))], map[t := Free]);
      Agreeing(db) && !Agreeing(WithLimits(db, t, Growth))
  {
    var db := Database({}, map[], map[t := Budget(Free, GetLimits(Free))], map[t := Free]);
    PlanLimitsKeepAgreement(db, t, Growth);
  }

  // ----- who decides a tenant's tier -----

  /** No other subscription of the tenant of `id` is current and was created after it. */
  predicate NoNewerCurrent(db: Database, id: SubscriptionId)
    requires id in db.subscriptions
  {
    forall other :: other in db.subscriptions && other != id
      && db.subscriptions[other].tenant == db.subscriptions[id].tenant
      && (db.subscriptions[other].status == Authenticated || db.subscriptions[other].status == Active)
      ==> db.subscriptions[other].createdAt <= db.subscriptions[id].createdAt
  }

  predicate StartsOrEnds(k: Kind) {
    k == Activated || k == Charged || k == Cancelled || k == Completed || k == Expired || k == Halted
  }

  /** The delivery is committed, starts or ends a subscription of `t`, and no newer one is current. */
  predicate Decides(plans: Plans, db: Database, e: Webhook, t: TenantId) {
    && Commits(plans, db, e) && StartsOrEnds(e.kind)
    && db.subscriptions[e.subscription.value].tenant == t && NoNewerCurrent(db, e.subscription.value)
  }

  /** The subscription's tier if it starts or is charged, Free if it ends. */
  function Decided(e: Webhook, s: Subscription): Tier {
    if e.kind == Activated || e.kind == Charged then s.tier else Free
  }

  /** The tenant's row and budget are on `tier`, with that tier's limits. */
  predicate OnTier(db: Database, t: TenantId, tier: Tier) {
    && (t in db.tenants ==> db.tenants[t] == tier)
    && (t in db.budgets ==> db.budgets[t] == Budget(tier, GetLimits(tier)))
  }

  predicate SameTier(db: Database, db': Database, t: TenantId) {
    && (t in db.tenants <==> t in db'.tenants) && (t in db.tenants ==> db'.tenants[t] == db.tenants[t])
    && (t in db.budgets <==> t in db'.budgets) && (t in db.budgets ==> db'.budgets[t] == db.budgets[t])
  }

  lemma {:induction false} NewerIsNewer(db: Database, id: SubscriptionId, s: Subscription)
    requires id in db.subscriptions && s.tenant == db.subscriptions[id].tenant && s.createdAt == db.subscriptions[id].createdAt
    ensures NewerCurrent(db.subscriptions[id := s], id, s) <==> !NoNewerCurrent(db, id)
  {
    var subs := db.subscriptions[id := s];
    if !NoNewerCurrent(db, id) {
      var other :| other in db.subscriptions && other != id && db.subscriptions[other].tenant == s.tenant
        && Current(db.subscriptions[other].status) && db.subscriptions[other].createdAt > s.createdAt;
      assert other in subs && subs[other] == db.subscriptions[other];
    }
    if NewerCurrent(subs, id, s) {
      var other :| other in subs && other != id && subs[other].tenant == s.tenant
        && Current(subs[other].status) && subs[other].createdAt > s.createdAt;
      assert subs[other] == db.subscriptions[other];
    }
  }

  /** What a committed delivery does to its tenant: it puts tenant and budget on the tier it
      decides, or, if a newer subscription is current or it starts and ends nothing, leaves both. */
  lemma {:induction false} DeliveryDecides(plans: Plans, db: Database, e: Webhook, t: TenantId)
    requires Commits(plans, db, e) && db.subscriptions[e.subscription.value].tenant == t
    ensures if Decides(plans, db, e, t) then OnTier(Deliver(plans, db, e), t, Decided(e, db.subscriptions[e.subscription.value]))
            else SameTier(db, Deliver(plans, db, e), t)
  {
    var id := e.subscription.value;
    NewerIsNewer(db, id, Updated(db.subscriptions[id], e));
  }

  /** The end of a subscription puts its tenant on Free, with the limits of Free, exactly if no
      newer subscription is current; otherwise it leaves the tenant as it is. */
  lemma {:induction false} EndsOnFree(plans: Plans, db: Database, e: Webhook, t: TenantId)
    requires Commits(plans, db, e) && db.subscriptions[e.subscription.value].tenant == t && t in db.tenants && t in db.budgets
    requires e.kind == Cancelled || e.kind == Completed || e.kind == Expired || e.kind == Halted
    ensures var after := Deliver(plans, db, e);
      if NoNewerCurrent(db, e.subscription.value)
      then after.tenants[t] == Free
        && after.budgets[t] == Budget(Free, Limits(Some(5_000), Some(2_000_000), Some(5_000), None, Some(3), Block, 0.8))
      else after.tenants[t] == db.tenants[t] && after.budgets[t] == db.budgets[t]
  {
    DeliveryDecides(plans, db, e, t);
  }

  lemma {:induction false} OthersLeaveTier(plans: Plans, db: Database, step: Step, t: TenantId)
    requires step.Delivery? && Commits(plans, db, step.e) ==> db.subscriptions[step.e.subscription.value].tenant != t
    ensures SameTier(db, Apply(plans, db, step), t)
  {
  }

  /** The tiers that the deliveries of a history decide for a tenant, in order. */
  function Decisions(plans: Plans, db: Database, steps: seq<Step>, t: TenantId): seq<Tier>
    decreases |steps|
  {
    if steps == [] then []
    else
      var rest := Decisions(plans, Apply(plans, db, steps[0]), steps[1..], t);
      if steps[0].Delivery? && Decides(plans, db, steps[0].e, t)
      then [Decided(steps[0].e, db.subscriptions[steps[0].e.subscription.value])] + rest
      else rest
  }

  lemma {:induction false} StepDecides(plans: Plans, db: Database, step: Step, t: TenantId)
    ensures if step.Delivery? && Decides(plans, db, step.e, t)
            then OnTier(Apply(plans, db, step), t, Decided(step.e, db.subscriptions[step.e.subscription.value]))
            else SameTier(db, Apply(plans, db, step), t)
  {
    if step.Delivery? && Commits(plans, db, step.e) && db.subscriptions[step.e.subscription.value].tenant == t {
      DeliveryDecides(plans, db, step.e, t);
    } else {
      OthersLeaveTier(plans, db, step, t);
    }
  }

  /** After every history the tenant is on the tier decided last, or where it was if none was. */
  lemma {:induction false} LastDecisionRules(plans: Plans, db: Database, steps: seq<Step>, t: TenantId)
    ensures var decided := Decisions(plans, db, steps, t);
      if decided == [] then SameTier(db, Play(plans, db, steps), t)
      else OnTier(Play(plans, db, steps), t, decided[|decided| - 1])
    decreases |steps|
  {
    if steps != [] {
      StepDecides(plans, db, steps[0], t);
      LastDecisionRules(plans, Apply(plans, db, steps[0]), steps[1..], t);
    }
  }

  /** A strictly latest subscription decides whenever it starts or ends; an older one of its
      tenant never decides while it is current. */
  lemma {:induction false} LatestDecides(plans: Plans, db: Database, e: Webhook, id: SubscriptionId)
    requires StrictlyLatest(db, id) && Commits(plans, db, e) && StartsOrEnds(e.kind)
    requires db.subscriptions[e.subscription.value].tenant == db.subscriptions[id].tenant
    ensures e.subscription == Some(id) ==> Decides(plans, db, e, db.subscriptions[id].tenant)
    ensures e.subscription != Some(id) && Current(db.subscriptions[id].status) ==> !Decides(plans, db, e, db.subscriptions[id].tenant)
  {
  }

  /** The tenant of a strictly latest subscription ends on its tier, or on Free, as its last
      start or end `e` says, exactly if nothing decides otherwise afterwards: each later decision
      can only be an older subscription's, at a moment at which the latest is not current. */
  lemma {:induction false} LatestSubscriptionRules(plans: Plans, db: Database, e: Webhook, after: seq<Step>, id: SubscriptionId, t: TenantId)
    requires Commits(plans, db, e) && e.subscription == Some(id) && StartsOrEnds(e.kind)
    requires StrictlyLatest(Play(plans, Deliver(plans, db, e), after), id) && t == db.subscriptions[id].tenant
    requires t in db.tenants && t in db.budgets
    ensures var next := Deliver(plans, db, e);
      var later, said := Decisions(plans, next, after, t), Decided(e, db.subscriptions[id]);
      var end := Play(plans, next, after);
      && t in end.tenants && t in end.budgets
      && end.budgets[t] == Budget(end.tenants[t], GetLimits(end.tenants[t]))
      && (end.tenants[t] == said <==> later == [] || later[|later| - 1] == said)
  {
    var next := Deliver(plans, db, e);
    LatestBefore(plans, next, after, id);
    StepExtends(plans, db, Delivery(e));
    LatestDecides(plans, db, e, id);
    DeliveryDecides(plans, db, e, t);
    PlayExtends(plans, next, after);
    LastDecisionRules(plans, next, after, t);
  }

  // ----- the newest current subscription wins -----

  predicate SameOrder(s: Subscription, s': Subscription) {
    s.tenant == s'.tenant && s.tier == s'.tier && s.createdAt == s'.createdAt
  }

  /** Rows are only added; tenant, tier and creation time never change. */
  ghost predicate Extends(db: Database, db': Database) {
    && (forall id :: id in db.subscriptions ==> id in db'.subscriptions && SameOrder(db.subscriptions[id], db'.subscriptions[id]))
    && db.budgets.Keys == db'.budgets.Keys && db.tenants.Keys == db'.tenants.Keys
  }

  lemma {:induction false} TierExtends(db: Database, db1: Database, t: TenantId, tier: Tier)
    requires Extends(db, db1)
    ensures Extends(db, WithTier(db1, t, tier))
  {
    assert WithTier(db1, t, tier).subscriptions == db1.subscriptions;
  }

  lemma {:induction false} StepExtends(plans: Plans, db: Database, step: Step)
    ensures Extends(db, Apply(plans, db, step))
  {
    if step.Delivery? && Commits(plans, db, step.e) {
      var id := step.e.subscription.value;
      var s := Updated(db.subscriptions[id], step.e);
      var db1 := db.(receipts := db.receipts + {step.e.id}, subscriptions := db.subscriptions[id := s]);
      TierExtends(db, db1, s.tenant, s.tier);
      TierExtends(db, db1, s.tenant, Free);
    }
  }

  lemma {:induction false} PlayExtends(plans: Plans, db: Database, steps: seq<Step>)
    ensures Extends(db, Play(plans, db, steps))
    decreases |steps|
  {
    if steps != [] {
      var next := Apply(plans, db, steps[0]);
      StepExtends(plans, db, steps[0]);
      PlayExtends(plans, next, steps[1..]);
    }
  }

  predicate StrictlyLatest(db: Database, id: SubscriptionId) {
    && id in db.subscriptions
    && forall other :: other in db.subscriptions && other != id && db.subscriptions[other].tenant == db.subscriptions[id].tenant ==>
         db.subscriptions[other].createdAt < db.subscriptions[id].createdAt
  }

  /** The subscription's own events only ever report it current, and never end it. */
  predicate StaysCurrent(steps: seq<Step>, id: SubscriptionId) {
    forall i :: 0 <= i < |steps| && steps[i].Delivery? && steps[i].e.subscription == Some(id) ==>
      !Terminal(steps[i].e.kind) && steps[i].e.status.Some? && Current(steps[i].e.status.value)
  }

  /** The tenant of `id` is on its tier, with that tier's limits, and `id` is current. */
  predicate Rules(db: Database, id: SubscriptionId) {
    && id in db.subscriptions && Current(db.subscriptions[id].status)
    && var s := db.subscriptions[id];
      && (s.tenant in db.budgets ==> db.budgets[s.tenant] == Budget(s.tier, GetLimits(s.tier)))
      && (s.tenant in db.tenants ==> db.tenants[s.tenant] == s.tier)
  }

  /** A committed delivery of another subscription leaves the ruled tenant alone. */
  lemma {:induction false} OtherDeliveryKeepsRule(db: Database, e: Webhook, id: SubscriptionId)
    requires Rules(db, id) && StrictlyLatest(db, id)
    requires e.subscription.Some? && e.subscription.value in db.subscriptions && e.subscription.value != id
    ensures Rules(Effect(db, e), id)
  {
    var other := e.subscription.value;
    var subs := db.subscriptions[other := Updated(db.subscriptions[other], e)];
    if subs[other].tenant == db.subscriptions[id].tenant {
      assert id in subs && subs[id] == db.subscriptions[id];
      assert NewerCurrent(subs, other, subs[other]);
    }
  }

  /** Its own delivery, reporting it current and not ending it, keeps it ruling. */
  lemma {:induction false} OwnDeliveryKeepsRule(db: Database, e: Webhook, id: SubscriptionId)
    requires Rules(db, id) && StrictlyLatest(db, id) && e.subscription == Some(id)
    requires !Terminal(e.kind) && e.status.Some? && Current(e.status.value)
    ensures Rules(Effect(db, e), id)
  {
    var subs := db.subscriptions[id := Updated(db.subscriptions[id], e)];
    assert !NewerCurrent(subs, id, subs[id]);
  }

  lemma {:induction false} StepKeepsRule(plans: Plans, db: Database, step: Step, id: SubscriptionId)
    requires Rules(db, id) && StrictlyLatest(db, id) && StaysCurrent([step], id)
    ensures Rules(Apply(plans, db, step), id)
  {
    assert [step][0] == step;
    match step
    case NewCheckout(r) =>
    case Verification(t, other, ok) =>
    case Delivery(e) =>
      if Commits(plans, db, e) {
        if e.subscription.value == id {
          OwnDeliveryKeepsRule(db, e, id);
        } else {
          OtherDeliveryKeepsRule(db, e, id);
        }
      }
  }

  lemma {:induction false} RuleIsKept(plans: Plans, db: Database, steps: seq<Step>, id: SubscriptionId)
    requires Rules(db, id) && StaysCurrent(steps, id) && StrictlyLatest(Play(plans, db, steps), id)
    ensures Rules(Play(plans, db, steps), id)
    decreases |steps|
  {
    if steps != [] {
      LatestBefore(plans, db, steps, id);
      assert StaysCurrent([steps[0]], id);
      StepKeepsRule(plans, db, steps[0], id);
      RuleIsKept(plans, Apply(plans, db, steps[0]), steps[1..], id);
    }
  }

  /** What is strictly latest in the end was so whenever it existed. */
  lemma {:induction false} LatestBefore(plans: Plans, db: Database, steps: seq<Step>, id: SubscriptionId)
    requires id in db.subscriptions && StrictlyLatest(Play(plans, db, steps), id)
    ensures StrictlyLatest(db, id)
  {
    PlayExtends(plans, db, steps);
  }

  /** Whatever deliveries, checkouts and verifications come in whatever order: if in the end
      `id` is its tenant's strictly latest subscription, one of its activations was processed,
      and its events all report it current and never end it, the tenant's budget and tier are
      those of `id`. */
  lemma {:induction false} NewestCurrentWins(plans: Plans, db: Database, before: seq<Step>, activation: Webhook, after: seq<Step>, id: SubscriptionId)
    requires activation.subscription == Some(id) && Activation(activation.kind)
    requires Commits(plans, Play(plans, db, before), activation)
    requires var steps := before + [Delivery(activation)] + after;
      StaysCurrent(steps, id) && StrictlyLatest(Play(plans, db, steps), id)
    ensures Rules(Play(plans, db, before + [Delivery(activation)] + after), id)
  {
    var tail := [Delivery(activation)] + after;
    assert before + [Delivery(activation)] + after == before + tail;
    PlaySplits(plans, db, before, tail);
    SuffixStaysCurrent(before, tail, id);
    ActivatedRules(plans, Play(plans, db, before), activation, after, id);
  }

  lemma {:induction false} SuffixStaysCurrent(a: seq<Step>, b: seq<Step>, id: SubscriptionId)
    requires StaysCurrent(a + b, id)
    ensures StaysCurrent(b, id)
  {
    assert forall i :: 0 <= i < |b| ==> b[i] == (a + b)[|a| + i];
  }

  /** The same from any state in which the activation is processed. */
  lemma {:induction false} ActivatedRules(plans: Plans, mid: Database, activation: Webhook, after: seq<Step>, id: SubscriptionId)
    requires activation.subscription == Some(id) && Activation(activation.kind) && Commits(plans, mid, activation)
    requires StaysCurrent([Delivery(activation)] + after, id)
    requires StrictlyLatest(Play(plans, mid, [Delivery(activation)] + after), id)
    ensures Rules(Play(plans, mid, [Delivery(activation)] + after), id)
  {
    var steps, next := [Delivery(activation)] + after, Deliver(plans, mid, activation);
    assert steps[0] == Delivery(activation) && steps[1..] == after;
    assert Play(plans, mid, steps) == Play(plans, next, after);
    SuffixStaysCurrent([Delivery(activation)], after, id);
    LatestBefore(plans, next, after, id);
    ActivationSetsRule(plans, mid, activation, id);
    RuleIsKept(plans, next, after, id);
  }

  lemma {:induction false} ActivationSetsRule(plans: Plans, db: Database, e: Webhook, id: SubscriptionId)
    requires Commits(plans, db, e) && e.subscription == Some(id) && Activation(e.kind)
    requires e.status.Some? && Current(e.status.value) && StrictlyLatest(Deliver(plans, db, e), id)
    ensures Rules(Deliver(plans, db, e), id)
  {
    var subs := db.subscriptions[id := Updated(db.subscriptions[id], e)];
    assert Deliver(plans, db, e).subscriptions == subs;
    assert !NewerCurrent(subs, id, subs[id]);
  }

  lemma {:induction false} PlaySplits(plans: Plans, db: Database, a: seq<Step>, b: seq<Step>)
    ensures Play(plans, db, a + b) == Play(plans, Play(plans, db, a), b)
    decreases |a|
  {
    if a == [] {
      assert a + b == b;
    } else {
      assert (a + b)[1..] == a[1..] + b;
      PlaySplits(plans, Apply(plans, db, a[0]), a[1..], b);
    }
  }

  /** The status condition cannot be dropped: once the latest subscription is no longer
      current, an older one's activation takes the tenant over. */
  lemma {:induction false} LapsedIsOverridden(plans: Plans, db: Database, e: Webhook, id: SubscriptionId)
    requires StrictlyLatest(db, id) && !Current(db.subscriptions[id].status)
    requires Commits(plans, db, e) && Activation(e.kind) && e.subscription.value != id
    requires var t := db.subscriptions[id].tenant;
      && db.subscriptions[e.subscription.value].tenant == t && t in db.tenants
      && forall other :: other in db.subscriptions && other != e.subscription.value && other != id ==> db.subscriptions[other].tenant != t
    ensures Deliver(plans, db, e).tenants[db.subscriptions[id].tenant] == db.subscriptions[e.subscription.value].tier
  {
    var other := e.subscription.value;
    var subs := db.subscriptions[other := Updated(db.subscriptions[other], e)];
    assert !NewerCurrent(subs, other, subs[other]);
  }
}
