/** Runs within one UTC day: which requests are in time there, so that every row stays readable. */
module Daytime {
  import opened Base
  import opened Domain
  import opened Tables
  import opened Store
  import opened CourierSpec
  import opened CourierFrame
  import opened SolverOutput
  import opened Planning
  import opened OrderCalls
  import opened Lifecycle
  import opened Registered
  import opened Readable

  /** The clock strictly advances within one UTC day, from `start` on. */
  predicate Steady(start: Instant, events: seq<Event>) {
    && (forall i :: 0 <= i < |events| ==> start < events[i].at && SameDay(start, events[i].at))
    && (forall i, j :: 0 <= i < j < |events| ==> events[i].at < events[j].at)
  }

  function ClockAt(start: Instant, events: seq<Event>, k: nat): Instant
    requires k <= |events|
  {
    if k == 0 then start else events[k - 1].at
  }

  lemma SteadyStep(start: Instant, events: seq<Event>, k: nat)
    requires Steady(start, events) && k < |events|
    ensures ClockAt(start, events, k) < events[k].at && SameDay(ClockAt(start, events, k), events[k].at)
  {
  }

  // ---------------------------------------------------------------- recorded times

  /** No arrival and no start is recorded for later in the day than the clock. */
  predicate ArrivalKept(m: Mission, t: Time) {
    m.actualArrival.Some? ==> m.actualArrival.value <= t
  }

  predicate StartKept(r: Route, t: Time) {
    r.actualStart.Some? ==> r.actualStart.value <= t
  }

  ghost predicate ArrivalsKept(missions: map<Id, Mission>, t: Time) {
    forall m <- missions :: ArrivalKept(missions[m], t)
  }

  ghost predicate StartsKept(routes: map<Id, Route>, t: Time) {
    forall r <- routes :: StartKept(routes[r], t)
  }

  ghost predicate TimesKept(db: Db, t: Time) {
    StartsKept(db.routes, t) && ArrivalsKept(db.missions, t)
  }

  lemma TimesKeptLater(db: Db, t: Time, later: Time)
    requires TimesKept(db, t) && t <= later
    ensures TimesKept(db, later)
  {
  }

  lemma StopKeepsTimes(db: Db, dir: Directory, user: Id, courier: Id, route: Route, m: Id, o: Id, rq: Request,
                       now: Instant)
    requires m in db.missions && o in db.orders && ArrivalsKept(db.missions, TimeOf(now))
    ensures ArrivalsKept(OnArrival(db, route, m, o, now).db.missions, TimeOf(now))
    ensures ArrivalsKept(OnDelivered(db, dir, user, courier, route, m, o, rq.comment, now).db.missions, TimeOf(now))
    ensures ArrivalsKept(OnUndelivered(db, route, m, o, rq, now).db.missions, TimeOf(now))
    ensures ArrivalsKept(OnStartRoute(db, rq.route, route, m, now).db.missions, TimeOf(now))
  {
    hide MissionReadable, HasWindow;
    assert ArrivalKept(db.missions[m], TimeOf(now));
    assert forall x <- db.missions :: ArrivalKept(db.missions[x], TimeOf(now));
  }

  lemma LeavingKeepsTimes(db: Db, rid: Id, route: Route, courier: Id, m: Id, now: Instant)
    requires rid in db.routes && ArrivalsKept(db.missions, TimeOf(now))
    ensures m in db.missions ==>
              && ArrivalsKept(OnStartNext(db, rid, route, m, now).db.missions, TimeOf(now))
              && ArrivalsKept(OnReturn(db, route, m, now).db.missions, TimeOf(now))
    ensures ArrivalsKept(OnFinish(db, rid, route, courier, now).db.missions, TimeOf(now))
  {
    hide MissionReadable, RouteReadable, NextByPosition, TotalWaiting;
    if m in db.missions {
      assert ArrivalKept(db.missions[m], TimeOf(now));
    }
    if Unfinished(db, route.currentMission) {
      assert ArrivalKept(db.missions[route.currentMission.value], TimeOf(now));
    }
  }

  lemma HandlerKeepsArrivals(db: Db, dir: Directory, user: Id, courier: Id, rq: Request, now: Instant)
    requires RouteAssigned(db, rq.route, courier) && (NeedsOrder(rq.step) ==> MissionGiven(db, rq))
    requires ArrivalsKept(db.missions, TimeOf(now))
    ensures ArrivalsKept(Process(db, dir, user, courier, rq, now).db.missions, TimeOf(now))
  {
    hide ArrivalsKept, RouteReadable, OnArrival, OnDelivered, OnUndelivered, OnStartRoute, OnStartNext, OnReturn,
      OnFinish;
    var route := db.routes[rq.route];
    if NeedsOrder(rq.step) {
      var m := MissionOn(db.missions, rq.order.value, rq.route).id;
      StopKeepsTimes(db, dir, user, courier, route, m, rq.order.value, rq, now);
      LeavingKeepsTimes(db, rq.route, route, courier, m, now);
    } else {
      LeavingKeepsTimes(db, rq.route, route, courier, 0, now);
    }
  }

  /** The times a handler sets on the route, and that it writes no other route. */
  lemma HandlerTimes(db: Db, dir: Directory, user: Id, courier: Id, rq: Request, now: Instant)
    requires RouteAssigned(db, rq.route, courier) && (NeedsOrder(rq.step) ==> MissionGiven(db, rq))
    ensures var p, route := Process(db, dir, user, courier, rq, now), db.routes[rq.route];
      && p.route.actualStart == (if rq.step.StartRoute? then Some(TimeOf(now)) else route.actualStart)
      && p.route.actualFinish == (if rq.step.FinishRoute? && p.ok then Some(TimeOf(now)) else route.actualFinish)
      && rq.route in p.db.routes && p.db.routes == db.routes[rq.route := p.db.routes[rq.route]]
      && p.db.routes[rq.route].actualStart == route.actualStart
      && p.db.routes[rq.route].actualFinish == route.actualFinish
      && p.db.routes[rq.route].status == route.status
  {
    hide MissionReadable, RouteReadable, HasWindow, NextByPosition, TotalWaiting, Incremented;
    assert db.routes == db.routes[rq.route := db.routes[rq.route]];
  }

  /** The route row after a request: what a whole request can have made of it. */
  lemma RequestTimes(db: Db, dir: Directory, user: Id, rq: Request, now: Instant)
    ensures var end := SetState(db, dir, user, rq, now).db;
      end.routes == db.routes
      || (rq.route in db.routes && rq.route in end.routes && end.routes == db.routes[rq.route := end.routes[rq.route]]
          && var r, r' := db.routes[rq.route], end.routes[rq.route];
          && (r'.actualStart == r.actualStart || r'.actualStart == Some(TimeOf(now)))
          && (r'.actualFinish == r.actualFinish || (r'.actualFinish == Some(TimeOf(now)) && r'.status.Finished?)))
  {
    hide Process, MissionGiven, RouteReadable;
    if user in dir.courierOf {
      var courier := dir.courierOf[user];
      var db1 := WithCourier(db, courier, rq);
      if RouteAssigned(db1, rq.route, courier) && (NeedsOrder(rq.step) ==> MissionGiven(db1, rq)) {
        HandlerTimes(db1, dir, user, courier, rq, now);
        RouteEntityFrame(db1, dir, user, courier, rq, now);
      }
    }
  }

  lemma RequestKeepsTimes(db: Db, dir: Directory, user: Id, rq: Request, now: Instant, mid: Db)
    requires DuringCourier(db, dir, user, rq, now, mid) && TimesKept(db, TimeOf(now))
    ensures TimesKept(mid, TimeOf(now))
  {
    hide DuringCourier, ArrivalsKept, Process, MissionGiven, RouteReadable;
    CommitsMix(db, dir, user, rq, now, mid);
    RequestTimes(db, dir, user, rq, now);
    if user in dir.courierOf {
      var courier := dir.courierOf[user];
      var db1 := WithCourier(db, courier, rq);
      if RouteAssigned(db1, rq.route, courier) && (NeedsOrder(rq.step) ==> MissionGiven(db1, rq)) {
        HandlerKeepsArrivals(db1, dir, user, courier, rq, now);
      }
    }
  }

  lemma StatusesKeepTimes(db: Db, db': Db, t: Time)
    requires TimesKept(db, t) && OnlyStatuses(db, db')
    ensures TimesKept(db', t)
  {
    forall m | m in db'.missions ensures ArrivalKept(db'.missions[m], t) {
      assert ArrivalKept(db.missions[m], t);
    }
    forall r | r in db'.routes ensures StartKept(db'.routes[r], t) {
      assert StartKept(db.routes[r], t);
    }
  }

  lemma MissionKeepsTimes(db: Db, p: Planned, t: Time)
    requires ArrivalsKept(db.missions, t) && p.row.actualArrival.None?
    ensures ArrivalsKept(WithMission(db, p).missions, t)
  {
    hide MissionReadable, CanInsert;
    var m := ExistingMission(db.missions, p.row.orderId);
    if m.Some? {
      assert ArrivalKept(db.missions[m.value], t);
    }
  }

  lemma {:induction false} MissionsKeepTimes(db: Db, ps: seq<Planned>, k: nat, t: Time)
    requires k <= |ps| && ArrivalsKept(db.missions, t) && forall p <- ps :: p.row.actualArrival.None?
    ensures ArrivalsKept(WithMissions(db, ps, k).missions, t)
  {
    hide MissionsStorable, WithMission, ArrivalsKept;
    if k == 0 {
    } else {
      MissionsKeepTimes(db, ps, k - 1, t);
      assert ps[k - 1] in ps;
      MissionKeepsTimes(WithMissions(db, ps, k - 1), ps[k - 1], t);
    }
  }

  lemma PersistKeepsTimes(db: Db, plan: Plan, now: Instant, mid: Db)
    requires TimesKept(db, TimeOf(now)) && NewPlan(plan) && DuringPersist(db, plan, now, mid)
    ensures TimesKept(mid, TimeOf(now))
  {
    hide ArrivalsKept, PersistState, WithMissions, WithStatuses, RouteReadable;
    var k: nat :| k <= 1 + |plan.orders| + |plan.missions| && mid == PersistState(db, plan, now, k);
    StageRoutes(db, plan, now, k);
    var i, j := StageForm(db, plan, now, k);
    var base := WithRoute(db, plan, now).(orders := WithStatuses(db.orders, plan, i));
    assert base.missions == db.missions;
    MissionsKeepTimes(base, plan.missions, j, TimeOf(now));
  }

  lemma GenerateKeepsTimes(db: Db, dir: Directory, g: Generation, now: Instant, mid: Db)
    requires TimesKept(db, TimeOf(now)) && DuringGenerate(db, dir, g, now, mid)
    ensures TimesKept(mid, TimeOf(now))
  {
    hide AfterSweep, Decide, DuringSweep, DuringPersist, NewPlan, OnlyStatuses, StartsKept, ArrivalsKept;
    var t := TimeOf(now);
    var db1 := AfterSweep(db, t);
    SweepIsStage(db, t);
    SweepWritesStatuses(db, t, db1);
    StatusesKeepTimes(db, db1, t);
    if DuringSweep(db, t, mid) {
      SweepWritesStatuses(db, t, mid);
      StatusesKeepTimes(db, mid, t);
    } else if Decide(db1, dir, g).Persist? {
      DecidedPlanIsNew(db1, dir, g);
      PersistKeepsTimes(db1, Decide(db1, dir, g).plan, now, mid);
    }
  }

  lemma OrderCallKeepsTimes(db: Db, c: OrderCall, t: Time)
    requires TimesKept(db, t) && CallFits(c)
    ensures TimesKept(AfterOrderCall(db, c), t)
  {
    hide FitsColumns, AfterPostpone;
  }

  lemma ScanKeepsTimes(db: Db, rid: Id, barcode: string, now: Instant, t: Time)
    requires TimesKept(db, t)
    ensures TimesKept(Scan(db, rid, barcode, now).db, t)
  {
    hide RouteReadable;
    if CanScan(db, rid, barcode) {
      var m := MissionOn(db.missions, OrderByBarcode(db.orders, barcode).id, rid).id;
      assert ArrivalKept(db.missions[m], t);
    }
  }

  lemma StepKeepsTimes(db: Db, dir: Directory, e: Event, next: Db)
    requires TimesKept(db, TimeOf(e.at)) && Leads(db, dir, e, next)
    ensures TimesKept(next, TimeOf(e.at))
  {
    hide TimesKept, DuringGenerate, AfterGenerate, DuringCancel, AfterCancel, SetState, DuringCourier, Scan,
      AfterOrderCall, OnlyStatuses;
    match e.op {
      case Generate(g) =>
        WholeGenerationIsAStage(db, dir, g, e.at);
        GenerateKeepsTimes(db, dir, g, e.at, next);
      case GenerateInterrupted(g) => GenerateKeepsTimes(db, dir, g, e.at, next);
      case Cancel(rid) =>
        WholeCancellationIsAStage(db, rid);
        CancelWritesStatuses(db, rid, next);
        StatusesKeepTimes(db, next, TimeOf(e.at));
      case CancelInterrupted(rid) =>
        CancelWritesStatuses(db, rid, next);
        StatusesKeepTimes(db, next, TimeOf(e.at));
      case Courier(user, rq) =>
        WholeRequestIsAStage(db, dir, user, rq, e.at);
        RequestKeepsTimes(db, dir, user, rq, e.at, next);
      case CourierInterrupted(user, rq) => RequestKeepsTimes(db, dir, user, rq, e.at, next);
      case ScanParcel(rid, barcode) => ScanKeepsTimes(db, rid, barcode, e.at, TimeOf(e.at));
      case OrderChange(c) => OrderCallKeepsTimes(db, c, TimeOf(e.at));
    }
  }

  lemma {:induction false} TimesStayKept(dir: Directory, states: seq<Db>, events: seq<Event>, k: nat, start: Instant)
    requires Run(dir, states, events) && k <= |events| && Steady(start, events) && TimesKept(states[0], TimeOf(start))
    ensures TimesKept(states[k], TimeOf(ClockAt(start, events, k)))
  {
    hide TimesKept, Supplied, Leads;
    if k == 0 {
    } else {
      TimesStayKept(dir, states, events, k - 1, start);
      RunStep(dir, states, events, k - 1);
      SteadyStep(start, events, k - 1);
      SameDayOrder(ClockAt(start, events, k - 1), events[k - 1].at);
      TimesKeptLater(states[k - 1], TimeOf(ClockAt(start, events, k - 1)), TimeOf(events[k - 1].at));
      StepKeepsTimes(states[k - 1], dir, events[k - 1], states[k]);
    }
  }

  // ---------------------------------------------------------------- readable within one day

  /** A request that starts a route comes before the finish that is stored for it, if there is one. */
  predicate StartsInTime(db: Db, e: Event) {
    && ByCourier(e)
    && e.op.request.step.StartRoute? && e.op.request.route in db.routes
    && db.routes[e.op.request.route].actualFinish.Some?
    ==> TimeOf(e.at) < db.routes[e.op.request.route].actualFinish.value
  }

  /** Within a day leaving and finishing are always in time, so only a start on a finished route is not. */
  lemma InTimeWithinADay(db: Db, dir: Directory, e: Event, clock: Instant)
    requires TimesKept(db, TimeOf(clock)) && clock < e.at && SameDay(clock, e.at) && StartsInTime(db, e)
    ensures EventInTime(db, dir, e)
  {
    hide RouteReadable, MissionReadable;
    SameDayOrder(clock, e.at);
    assert forall r <- db.routes :: StartKept(db.routes[r], TimeOf(clock));
    assert forall m <- db.missions :: ArrivalKept(db.missions[m], TimeOf(clock));
  }

  /**
   Within one UTC day every stored row stays readable in every run, interrupted anywhere, in which no route is
   started at or after the finish stored for it.
   */
  lemma {:induction false} ReadableWithinADay(dir: Directory, states: seq<Db>, events: seq<Event>, k: nat,
                                              start: Instant)
    requires Run(dir, states, events) && k <= |events| && Steady(start, events)
    requires AllReadable(states[0]) && TimesKept(states[0], TimeOf(start))
    requires forall i :: 0 <= i < k ==> StartsInTime(states[i], events[i])
    ensures AllReadable(states[k])
  {
    hide AllReadable, TimesKept, Supplied, Leads, StartsInTime, EventInTime;
    forall i | 0 <= i < k ensures EventInTime(states[i], dir, events[i]) {
      TimesStayKept(dir, states, events, i, start);
      SteadyStep(start, events, i);
      InTimeWithinADay(states[i], dir, events[i], ClockAt(start, events, i));
    }
    EveryRowStaysReadable(dir, states, events, k);
  }

  // ---------------------------------------------------------------- requests on live routes

  /** A courier request does not address a route that is over. */
  predicate OnLiveRoute(db: Db, e: Event) {
    && ByCourier(e) && e.op.request.route in db.routes
    ==> Live(db.routes[e.op.request.route])
  }

  ghost predicate LiveAreOpen(routes: map<Id, Route>) {
    forall r <- routes :: Live(routes[r]) ==> routes[r].actualFinish.None?
  }

  lemma StepLeavesLiveOpen(db: Db, dir: Directory, e: Event, next: Db)
    requires LiveAreOpen(db.routes) && OnLiveRoute(db, e) && Leads(db, dir, e, next)
    ensures LiveAreOpen(next.routes)
  {
    hide DuringGenerate, AfterGenerate, DuringCancel, AfterCancel, SetState, DuringCourier, Scan, AfterOrderCall,
      LiveAreOpen;
    match e.op {
      case Generate(g) =>
        WholeGenerationIsAStage(db, dir, g, e.at);
        GenerateLeavesLiveOpen(db, dir, g, e.at, next);
      case GenerateInterrupted(g) => GenerateLeavesLiveOpen(db, dir, g, e.at, next);
      case Cancel(rid) =>
        WholeCancellationIsAStage(db, rid);
        CancelWritesStatuses(db, rid, next);
        StatusesLeaveLiveOpen(db, next);
      case CancelInterrupted(rid) =>
        CancelWritesStatuses(db, rid, next);
        StatusesLeaveLiveOpen(db, next);
      case Courier(user, rq) =>
        WholeRequestIsAStage(db, dir, user, rq, e.at);
        RequestLeavesLiveOpen(db, dir, user, rq, e.at, next);
      case CourierInterrupted(user, rq) => RequestLeavesLiveOpen(db, dir, user, rq, e.at, next);
      case ScanParcel(rid, barcode) => ScanLosesNoRow(db, rid, barcode, e.at);
      case OrderChange(c) => OrderCallLosesNoRow(db, c);
    }
  }

  lemma StatusesLeaveLiveOpen(db: Db, db': Db)
    requires LiveAreOpen(db.routes) && OnlyStatuses(db, db')
    ensures LiveAreOpen(db'.routes)
  {
  }

  lemma RequestLeavesLiveOpen(db: Db, dir: Directory, user: Id, rq: Request, now: Instant, mid: Db)
    requires LiveAreOpen(db.routes) && (rq.route in db.routes ==> Live(db.routes[rq.route]))
    requires DuringCourier(db, dir, user, rq, now, mid)
    ensures LiveAreOpen(mid.routes)
  {
    hide DuringCourier, SetState;
    CommitsMix(db, dir, user, rq, now, mid);
    RequestTimes(db, dir, user, rq, now);
  }

  lemma PersistLeavesLiveOpen(db: Db, plan: Plan, now: Instant, mid: Db)
    requires LiveAreOpen(db.routes) && NewPlan(plan) && DuringPersist(db, plan, now, mid)
    ensures LiveAreOpen(mid.routes)
  {
    hide DuringPersist, RouteReadable, MissionReadable;
    PersistLosesNoRow(db, plan, now, mid);
  }

  lemma GenerateLeavesLiveOpen(db: Db, dir: Directory, g: Generation, now: Instant, mid: Db)
    requires LiveAreOpen(db.routes) && DuringGenerate(db, dir, g, now, mid)
    ensures LiveAreOpen(mid.routes)
  {
    hide AfterSweep, Decide, DuringSweep, DuringPersist, OnlyStatuses, NewPlan, LiveAreOpen;
    var t := TimeOf(now);
    var db1 := AfterSweep(db, t);
    SweepIsStage(db, t);
    SweepWritesStatuses(db, t, db1);
    StatusesLeaveLiveOpen(db, db1);
    if DuringSweep(db, t, mid) {
      SweepWritesStatuses(db, t, mid);
      StatusesLeaveLiveOpen(db, mid);
    } else if Decide(db1, dir, g).Persist? {
      DecidedPlanIsNew(db1, dir, g);
      PersistLeavesLiveOpen(db1, Decide(db1, dir, g).plan, now, mid);
    }
  }

  lemma {:induction false} LiveStayOpen(dir: Directory, states: seq<Db>, events: seq<Event>, k: nat)
    requires Run(dir, states, events) && k <= |events| && LiveAreOpen(states[0].routes)
    requires forall i :: 0 <= i < k ==> OnLiveRoute(states[i], events[i])
    ensures LiveAreOpen(states[k].routes)
  {
    hide Supplied, Leads, LiveAreOpen, OnLiveRoute;
    if k == 0 {
    } else {
      LiveStayOpen(dir, states, events, k - 1);
      RunStep(dir, states, events, k - 1);
      StepLeavesLiveOpen(states[k - 1], dir, events[k - 1], states[k]);
    }
  }

  /** In particular, every row stays readable while couriers address only routes that are not over. */
  lemma LiveRequestsStayReadable(dir: Directory, states: seq<Db>, events: seq<Event>, k: nat, start: Instant)
    requires Run(dir, states, events) && k <= |events| && Steady(start, events)
    requires AllReadable(states[0]) && TimesKept(states[0], TimeOf(start)) && LiveAreOpen(states[0].routes)
    requires forall i :: 0 <= i < k ==> OnLiveRoute(states[i], events[i])
    ensures AllReadable(states[k])
  {
    hide AllReadable, TimesKept, Supplied, Leads;
    forall i | 0 <= i < k ensures StartsInTime(states[i], events[i]) {
      LiveStayOpen(dir, states, events, i);
    }
    ReadableWithinADay(dir, states, events, k, start);
  }
}
