/** Metering of deliveries against a customer's limit, and the admission of routes by what remains of it. */
module Metering {
  import opened Base
  import opened Domain
  import opened Tables
  import opened Store
  import opened Billing
  import opened CourierSpec
  import opened CourierFrame
  import opened SolverOutput
  import opened Planning
  import opened OrderCalls
  import opened Lifecycle

  ghost predicate AllMetered(usage: map<Id, Usage>) {
    forall u <- usage :: Metered(usage[u])
  }

  // ---------------------------------------------------------------- runs

  function AfterUsageEvents(usage: map<Id, Usage>, es: seq<UsageEvent>): map<Id, Usage> {
    if es == [] then usage
    else AfterUsageEvent(AfterUsageEvents(usage, es[..|es| - 1]), es[|es| - 1])
  }

  lemma {:induction false} MeteringStaysExact(usage: map<Id, Usage>, es: seq<UsageEvent>)
    requires AllMetered(usage) && forall e <- es :: e.Opened? ==> e.limit >= 0
    ensures AllMetered(AfterUsageEvents(usage, es))
  {
    if es == [] {
    } else {
      MeteringStaysExact(usage, es[..|es| - 1]);
    }
  }

  /** What the recorded deliveries of a customer amount to, whatever happens to other customers. */
  lemma {:induction false} CountFollowsDeliveries(usage: map<Id, Usage>, es: seq<UsageEvent>, customer: Id, u: Id)
    requires UsageOf(usage, customer) == One(u) && u in usage
    requires forall e <- es :: e.Opened? ==> e.customer != customer
    ensures var after := AfterUsageEvents(usage, es);
      && UsageOf(after, customer) == One(u) && u in after && after[u].limit == usage[u].limit
      && after[u].count == usage[u].count + Deliveries(es, customer)
  {
    if es == [] {
    } else {
      var before := AfterUsageEvents(usage, es[..|es| - 1]);
      CountFollowsDeliveries(usage, es[..|es| - 1], customer, u);
      EventOfOthers(before, es[|es| - 1], customer, u);
    }
  }

  function Deliveries(es: seq<UsageEvent>, customer: Id): nat {
    if es == [] then 0
    else Deliveries(es[..|es| - 1], customer) + if es[|es| - 1] == Recorded(customer) then 1 else 0
  }

  lemma EventOfOthers(usage: map<Id, Usage>, e: UsageEvent, customer: Id, u: Id)
    requires UsageOf(usage, customer) == One(u) && u in usage && (e.Opened? ==> e.customer != customer)
    ensures var after := AfterUsageEvent(usage, e);
      && UsageOf(after, customer) == One(u) && u in after
      && (if e == Recorded(customer) then after[u] == Counted(usage[u]) else after[u] == usage[u])
  {
    var after := AfterUsageEvent(usage, e);
    SoleIs(UsageRowsOf(usage, customer), u);
    assert u in UsageRowsOf(usage, customer);
    if e.Recorded? && e.customer != customer && UsageOf(usage, e.customer).One? {
      var other := UsageOf(usage, e.customer).id;
      SoleIs(UsageRowsOf(usage, e.customer), other);
      assert other in UsageRowsOf(usage, e.customer);
    }
    assert UsageRowsOf(after, customer) == UsageRowsOf(usage, customer);
  }

  /** A second usage row ends the metering: deliveries are no longer counted, and every route is admitted. */
  lemma TwoRowsEndTheMetering(usage: map<Id, Usage>, dir: Directory, user: Id, a: Id, b: Id, n: nat)
    requires a in usage && b in usage && a != b && usage[a].customer == usage[b].customer
    requires user in dir.customerOf && dir.customerOf[user] == usage[a].customer
    ensures Incremented(usage, usage[a].customer) == usage
    ensures CanGenerate(usage, dir, user, n)
  {
    var rows := UsageRowsOf(usage, usage[a].customer);
    assert a in rows && b in rows;
    if UsageOf(usage, usage[a].customer).One? {
      SoleIs(rows, UsageOf(usage, usage[a].customer).id);
    }
  }

  // ---------------------------------------------------------------- runs of the whole system

  /** A delivery is counted once, for the customer of the caller; nothing else writes the usage. */
  predicate CountedOnce(usage: map<Id, Usage>, usage': map<Id, Usage>, dir: Directory, user: Id) {
    usage' == usage || (user in dir.customerOf && usage' == Incremented(usage, dir.customerOf[user]))
  }

  lemma StopCountsOnce(db: Db, dir: Directory, user: Id, courier: Id, route: Route, m: Id, o: Id, rq: Request,
                       now: Instant)
    requires m in db.missions && o in db.orders && rq.route in db.routes
    ensures CountedOnce(db.usage, OnDelivered(db, dir, user, courier, route, m, o, rq.comment, now).db.usage, dir, user)
    ensures OnArrival(db, route, m, o, now).db.usage == db.usage
    ensures OnUndelivered(db, route, m, o, rq, now).db.usage == db.usage
    ensures OnStartNext(db, rq.route, route, m, now).db.usage == db.usage
  {
    hide MissionReadable, RouteReadable, HasWindow, Incremented, NextByPosition, OverwriteRoute;
  }

  lemma CourierCountsOnce(db: Db, dir: Directory, user: Id, rq: Request, now: Instant)
    ensures CountedOnce(db.usage, SetState(db, dir, user, rq, now).db.usage, dir, user)
  {
    hide OnArrival, OnDelivered, OnUndelivered, OnStartNext, RouteReadable, MissionReadable, TotalWaiting,
      Incremented, Completed, WithStep, MissionOn;
    if user in dir.courierOf {
      var courier := dir.courierOf[user];
      var db1 := WithCourier(db, courier, rq);
      if RouteAssigned(db1, rq.route, courier) && NeedsOrder(rq.step) && MissionGiven(db1, rq) {
        var m := MissionOn(db1.missions, rq.order.value, rq.route).id;
        StopCountsOnce(db1, dir, user, courier, db1.routes[rq.route], m, rq.order.value, rq, now);
      }
    }
  }

  lemma {:induction false} MissionsLeaveUsage(db: Db, ps: seq<Planned>, k: nat)
    requires k <= |ps|
    ensures WithMissions(db, ps, k).usage == db.usage
  {
    hide MissionReadable, MissionsStorable, ExistingMission, CanInsert;
    if k == 0 {
    } else {
      MissionsLeaveUsage(db, ps, k - 1);
    }
  }

  lemma PersistLeavesUsage(db: Db, plan: Plan, now: Instant, k: nat)
    requires k <= 1 + |plan.orders| + |plan.missions|
    ensures PersistState(db, plan, now, k).usage == db.usage
  {
    hide RouteReadable, JoinedRoute, WithMissions;
    if k > 1 + |plan.orders| {
      var base := WithRoute(db, plan, now).(orders := WithStatuses(db.orders, plan, |plan.orders|));
      MissionsLeaveUsage(base, plan.missions, k - 1 - |plan.orders|);
    }
  }

  lemma GenerateLeavesUsage(db: Db, dir: Directory, g: Generation, now: Instant, mid: Db)
    requires DuringGenerate(db, dir, g, now, mid)
    ensures mid.usage == db.usage
  {
    hide Decide, PersistState, SweepProgress;
    var db1 := AfterSweep(db, TimeOf(now));
    if !DuringSweep(db, TimeOf(now), mid) && Decide(db1, dir, g).Persist? {
      var plan := Decide(db1, dir, g).plan;
      var k: nat :| k <= 1 + |plan.orders| + |plan.missions| && mid == PersistState(db1, plan, now, k);
      PersistLeavesUsage(db1, plan, now, k);
    }
  }

  lemma StageCountsOnce(db: Db, dir: Directory, user: Id, rq: Request, now: Instant, mid: Db)
    requires DuringCourier(db, dir, user, rq, now, mid)
    ensures CountedOnce(db.usage, mid.usage, dir, user)
  {
    hide DuringCourier, SetState, Incremented;
    CommitsMix(db, dir, user, rq, now, mid);
    CourierCountsOnce(db, dir, user, rq, now);
  }

  /** The caller of a courier request, whole or interrupted. */
  function CallerOf(e: Event): Option<Id> {
    if ByCourier(e) then Some(e.op.user) else None
  }

  lemma StepCountsOnce(db: Db, dir: Directory, e: Event, next: Db)
    requires Leads(db, dir, e, next)
    ensures if CallerOf(e).Some? then CountedOnce(db.usage, next.usage, dir, CallerOf(e).value)
            else next.usage == db.usage
  {
    hide SetState, DuringCourier, DuringGenerate, AfterGenerate, PageOf, CanScan, CountedOnce, CancelState,
      AfterPostpone, FitsColumns, RouteReadable;
    match e.op {
      case Generate(g) =>
        WholeGenerationIsAStage(db, dir, g, e.at);
        GenerateLeavesUsage(db, dir, g, e.at, next);
      case GenerateInterrupted(g) => GenerateLeavesUsage(db, dir, g, e.at, next);
      case Cancel(rid) => CancelLeavesUsage(db, rid, next) by { WholeCancellationIsAStage(db, rid); }
      case CancelInterrupted(rid) => CancelLeavesUsage(db, rid, next);
      case Courier(user, rq) => CourierCountsOnce(db, dir, user, rq, e.at);
      case CourierInterrupted(user, rq) => StageCountsOnce(db, dir, user, rq, e.at, next);
      case ScanParcel(rid, barcode) =>
      case OrderChange(c) =>
    }
  }

  lemma CancelLeavesUsage(db: Db, rid: Id, mid: Db)
    requires DuringCancel(db, rid, mid)
    ensures mid.usage == db.usage
  {
    hide PageOf, RouteReadable;
  }

  /** In every run of the whole system, interrupted anywhere, the overage is exact. */
  lemma {:induction false} MeteringStaysExactInRuns(dir: Directory, states: seq<Db>, events: seq<Event>, k: nat)
    requires Run(dir, states, events) && k <= |events| && AllMetered(states[0].usage)
    ensures AllMetered(states[k].usage)
    ensures forall u <- states[k].usage ::
              var row := states[k].usage[u];
              row.count + Remaining(row) == row.limit + row.overage
  {
    hide Supplied, Leads;
    if k == 0 {
    } else {
      MeteringStaysExactInRuns(dir, states, events, k - 1);
      RunStep(dir, states, events, k - 1);
      StepCountsOnce(states[k - 1], dir, events[k - 1], states[k]);
    }
  }

  // ---------------------------------------------------------------- admission

  /** A generation for this customer that its limit allows, however far it then gets. */
  predicate Admits(db: Db, dir: Directory, e: Event, customer: Id) {
    && (e.op.Generate? || e.op.GenerateInterrupted?)
    && e.op.g.user in dir.customerOf && dir.customerOf[e.op.g.user] == customer
    && Billing.CanGenerate(db.usage, dir, e.op.g.user, |e.op.g.requested|)
  }

  function CountOf(db: Db, u: Id): int {
    if u in db.usage then db.usage[u].count else 0
  }

  /** How many deliveries the last admission still covers after `k` events; a refusal is no admission. */
  function Covered(dir: Directory, states: seq<Db>, events: seq<Event>, customer: Id, u: Id, k: nat): int
    requires k <= |events| && |states| == |events| + 1
  {
    if k == 0 then 0
    else if Admits(states[k - 1], dir, events[k - 1], customer) then |events[k - 1].op.g.requested|
    else
      Covered(dir, states, events, customer, u, k - 1) - (CountOf(states[k], u) - CountOf(states[k - 1], u))
  }

  /** Each admission of `n` orders is followed by at most `n` recorded deliveries before the next. */
  ghost predicate Disciplined(dir: Directory, states: seq<Db>, events: seq<Event>, customer: Id, u: Id)
    requires |states| == |events| + 1
  {
    forall k :: 0 <= k <= |events| ==> Covered(dir, states, events, customer, u, k) >= 0
  }

  /** What one event does to the usage row of a customer: nothing, or one more delivery of its own. */
  lemma StepOfUsageRow(db: Db, dir: Directory, e: Event, next: Db, customer: Id, u: Id)
    requires Leads(db, dir, e, next) && UsageOf(db.usage, customer) == One(u) && u in db.usage
    ensures UsageOf(next.usage, customer) == One(u) && u in next.usage
    ensures next.usage[u] == db.usage[u] || (ByCourier(e) && next.usage[u] == Counted(db.usage[u]))
  {
    hide Leads, UsageOf;
    StepCountsOnce(db, dir, e, next);
    if CallerOf(e).Some? && CallerOf(e).value in dir.customerOf {
      EventOfOthers(db.usage, Recorded(dir.customerOf[CallerOf(e).value]), customer, u);
    }
  }

  /** A customer's one usage row stays its one usage row. */
  lemma {:induction false} UsageRowStays(dir: Directory, states: seq<Db>, events: seq<Event>, customer: Id, u: Id,
                                         k: nat)
    requires Run(dir, states, events) && k <= |events|
    requires UsageOf(states[0].usage, customer) == One(u) && u in states[0].usage
    ensures UsageOf(states[k].usage, customer) == One(u) && u in states[k].usage
    ensures states[k].usage[u].limit == states[0].usage[u].limit
  {
    hide Supplied, Leads, UsageOf;
    if k == 0 {
    } else {
      UsageRowStays(dir, states, events, customer, u, k - 1);
      RunStep(dir, states, events, k - 1);
      StepOfUsageRow(states[k - 1], dir, events[k - 1], states[k], customer, u);
    }
  }

  /**
   In every run, with whatever other calls in between, a customer whose admissions are each followed by no more
   deliveries than they admitted never exceeds its limit: what is used and still covered fits it.
   */
  lemma {:induction false} DisciplineKeepsTheLimit(dir: Directory, states: seq<Db>, events: seq<Event>, customer: Id,
                                                   u: Id, k: nat)
    requires Run(dir, states, events) && k <= |events|
    requires UsageOf(states[0].usage, customer) == One(u) && u in states[0].usage
    requires Metered(states[0].usage[u]) && states[0].usage[u].overage == 0
    requires Disciplined(dir, states, events, customer, u)
    ensures u in states[k].usage
    ensures var row := states[k].usage[u];
      && row.limit == states[0].usage[u].limit && Metered(row) && row.overage == 0
      && row.count + Covered(dir, states, events, customer, u, k) <= row.limit
  {
    hide Supplied, Leads, UsageOf;
    UsageRowStays(dir, states, events, customer, u, k);
    assert Covered(dir, states, events, customer, u, k) >= 0;
    if k == 0 {
    } else {
      DisciplineKeepsTheLimit(dir, states, events, customer, u, k - 1);
      UsageRowStays(dir, states, events, customer, u, k - 1);
      RunStep(dir, states, events, k - 1);
      StepOfUsageRow(states[k - 1], dir, events[k - 1], states[k], customer, u);
    }
  }
}
