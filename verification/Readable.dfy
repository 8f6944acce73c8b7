/** Exactly when a courier request makes a row unreadable, and which runs keep every row readable. */
module Readable {
  import opened Base
  import opened Domain
  import opened Tables
  import opened Store
  import opened CourierSpec
  import opened CourierFrame
  import opened SolverOutput
  import opened Planning
  import opened PlanPartition
  import opened OrderCalls
  import opened Lifecycle
  import opened Registered

  ghost predicate AllReadable(db: Db) {
    && (forall r <- db.routes :: RouteReadable(db.routes[r]))
    && (forall m <- db.missions :: MissionReadable(db.missions[m]))
  }

  /** A row that cannot be read after the step could not be read before it. */
  ghost predicate LosesNoRoute(routes: map<Id, Route>, routes': map<Id, Route>) {
    forall r <- routes' :: (r in routes ==> RouteReadable(routes[r])) ==> RouteReadable(routes'[r])
  }

  ghost predicate LosesNoMission(missions: map<Id, Mission>, missions': map<Id, Mission>) {
    forall m <- missions' :: (m in missions ==> MissionReadable(missions[m])) ==> MissionReadable(missions'[m])
  }

  ghost predicate LosesNoRow(db: Db, db': Db) {
    LosesNoRoute(db.routes, db'.routes) && LosesNoMission(db.missions, db'.missions)
  }

  lemma LosesNoRowTwice(a: Db, b: Db, c: Db)
    requires LosesNoRow(a, b) && LosesNoRow(b, c)
    ensures LosesNoRow(a, c)
  {
    hide RouteReadable, MissionReadable;
  }

  // ---------------------------------------------------------------- exactly when a request loses a row

  /** The request gets through to its handler. */
  predicate Granted(db: Db, dir: Directory, user: Id, rq: Request) {
    && user in dir.courierOf && RouteAssigned(db, rq.route, dir.courierOf[user])
    && (NeedsOrder(rq.step) ==> MissionGiven(db, rq))
  }

  /** The service time in whole seconds is rounded toward zero, so up to a second is forgiven. */
  predicate CompletedInTime(m: Mission, t: Time) {
    m.actualArrival.Some? ==> t - m.actualArrival.value > -SECOND
  }

  /** A mission the request completes was not reached later in the day. */
  predicate MissionInTime(db: Db, rq: Request, now: Instant)
    requires rq.route in db.routes && (NeedsOrder(rq.step) ==> MissionGiven(db, rq))
  {
    if rq.step.StartNextDelivery? || rq.step.ReturnToHub? then
      CompletedInTime(db.missions[MissionOn(db.missions, rq.order.value, rq.route).id], TimeOf(now))
    else if rq.step.FinishRoute? && Unfinished(db, db.routes[rq.route].currentMission) then
      CompletedInTime(db.missions[db.routes[rq.route].currentMission.value], TimeOf(now))
    else true
  }

  /** A start lies before a stored finish, and a finish after a stored start. */
  predicate RouteInTime(r: Route, step: CourierStep, t: Time) {
    && (step.StartRoute? && r.actualFinish.Some? ==> t < r.actualFinish.value)
    && (step.FinishRoute? && r.actualStart.Some? ==> r.actualStart.value < t)
  }

  predicate InTime(db: Db, dir: Directory, user: Id, rq: Request, now: Instant) {
    Granted(db, dir, user, rq) ==>
      MissionInTime(db, rq, now) && RouteInTime(db.routes[rq.route], rq.step, TimeOf(now))
  }

  /** Completing a mission leaves a readable row if and only if it is in time. */
  lemma CompletionKeepsReadable(m: Mission, t: Time)
    requires MissionReadable(m)
    ensures MissionReadable(Completed(m, t)) <==> CompletedInTime(m, t)
  {
  }

  /** The handlers at a stop never lose a row. */
  lemma StopLosesNoMission(db: Db, dir: Directory, user: Id, courier: Id, route: Route, m: Id, o: Id, rq: Request,
                           now: Instant)
    requires m in db.missions && o in db.orders && MissionReadable(db.missions[m])
    ensures LosesNoMission(db.missions, OnArrival(db, route, m, o, now).db.missions)
    ensures LosesNoMission(db.missions, OnDelivered(db, dir, user, courier, route, m, o, rq.comment, now).db.missions)
    ensures LosesNoMission(db.missions, OnUndelivered(db, route, m, o, rq, now).db.missions)
    ensures LosesNoMission(db.missions, OnStartRoute(db, rq.route, route, m, now).db.missions)
  {
  }

  /** The handlers that leave a mission lose its row exactly when it is completed too early. */
  lemma LeavingLosesTheMission(db: Db, rid: Id, route: Route, m: Id, now: Instant)
    requires m in db.missions && rid in db.routes && MissionReadable(db.missions[m])
    ensures LosesNoMission(db.missions, OnStartNext(db, rid, route, m, now).db.missions)
       <==> CompletedInTime(db.missions[m], TimeOf(now))
    ensures LosesNoMission(db.missions, OnReturn(db, route, m, now).db.missions)
       <==> CompletedInTime(db.missions[m], TimeOf(now))
  {
    hide RouteReadable, MissionReadable, NextByPosition, Completed;
    CompletionKeepsReadable(db.missions[m], TimeOf(now));
    assert OnReturn(db, route, m, now).db.missions[m] == Completed(db.missions[m], TimeOf(now));
    assert OnStartNext(db, rid, route, m, now).db.missions[m] == Completed(db.missions[m], TimeOf(now));
  }

  lemma FinishLosesTheMission(db: Db, rid: Id, route: Route, courier: Id, now: Instant)
    ensures var p := OnFinish(db, rid, route, courier, now);
      && (LosesNoMission(db.missions, p.db.missions)
          <==> (Unfinished(db, route.currentMission) ==>
                  CompletedInTime(db.missions[route.currentMission.value], TimeOf(now))))
      && (p.ok <==> LosesNoMission(db.missions, p.db.missions))
  {
    hide TotalWaiting, WithStep, WithoutDelivered, Completed;
    if Unfinished(db, route.currentMission) {
      var m := route.currentMission.value;
      CompletionKeepsReadable(db.missions[m], TimeOf(now));
      assert OnFinish(db, rid, route, courier, now).db.missions[m] == Completed(db.missions[m], TimeOf(now));
    }
  }

  lemma HandlerLosesTheMission(db: Db, dir: Directory, user: Id, courier: Id, rq: Request, now: Instant)
    requires RouteAssigned(db, rq.route, courier) && (NeedsOrder(rq.step) ==> MissionGiven(db, rq))
    ensures LosesNoMission(db.missions, Process(db, dir, user, courier, rq, now).db.missions)
       <==> MissionInTime(db, rq, now)
  {
    hide LosesNoMission, CompletedInTime, RouteReadable, OnArrival, OnDelivered, OnUndelivered, OnStartRoute,
      OnStartNext, OnReturn, OnFinish;
    var route := db.routes[rq.route];
    NothingLost(db);
    if NeedsOrder(rq.step) {
      var m := MissionOn(db.missions, rq.order.value, rq.route).id;
      StopLosesNoMission(db, dir, user, courier, route, m, rq.order.value, rq, now);
      LeavingLosesTheMission(db, rq.route, route, m, now);
    } else {
      FinishLosesTheMission(db, rq.route, route, courier, now);
    }
  }

  lemma NothingLost(db: Db)
    ensures LosesNoMission(db.missions, db.missions) && LosesNoRoute(db.routes, db.routes)
  {
  }

  /** The route entity of a handler: its readability depends on the times alone. */
  lemma HandlerEntity(db: Db, dir: Directory, user: Id, courier: Id, rq: Request, now: Instant)
    requires RouteAssigned(db, rq.route, courier) && (NeedsOrder(rq.step) ==> MissionGiven(db, rq))
    ensures var p, timed := Process(db, dir, user, courier, rq, now), rq.step.StartRoute? || rq.step.FinishRoute?;
      && (p.ok ==> (RouteReadable(p.route) <==> RouteInTime(db.routes[rq.route], rq.step, TimeOf(now))))
      && (timed ==> p.db.routes == db.routes) && (!timed ==> RouteReadable(p.route))
      && (rq.step.StartRoute? ==> p.ok)
  {
    hide HasWindow, TotalWaiting, NextByPosition, Incremented, MissionReadable, OverwriteRoute;
  }

  /** What the handlers do to the route. */
  lemma HandlerRoute(db: Db, dir: Directory, user: Id, courier: Id, rq: Request, now: Instant)
    requires RouteAssigned(db, rq.route, courier) && (NeedsOrder(rq.step) ==> MissionGiven(db, rq))
    ensures var p := Process(db, dir, user, courier, rq, now);
      && rq.route in p.db.routes && LosesNoRoute(db.routes, p.db.routes)
      && (p.ok ==> (RouteReadable(p.route) <==> RouteInTime(db.routes[rq.route], rq.step, TimeOf(now))))
      && (rq.step.StartRoute? ==> p.ok)
      && (rq.step.FinishRoute? ==> (p.ok <==> MissionInTime(db, rq, now)))
  {
    hide RouteReadable, OnFinish, OnStartRoute, OnArrival, OnDelivered, OnUndelivered, OnStartNext, OnReturn,
      MissionGiven;
    HandlerEntity(db, dir, user, courier, rq, now);
    HandlerRoutes(db, dir, user, courier, rq, now);
    OverwrittenReadable(db.routes[rq.route], Process(db, dir, user, courier, rq, now).route);
    if rq.step.FinishRoute? {
      FinishLosesTheMission(db, rq.route, db.routes[rq.route], courier, now);
    }
  }

  lemma OverwrittenReadable(row: Route, entity: Route)
    ensures RouteReadable(OverwriteRoute(row, entity)) <==> RouteReadable(entity)
  {
  }

  /** The write-back loses the route's row exactly when it is reached with times out of order. */
  lemma ConcludeLosesTheRoute(p: Progress, rid: Id, courier: Id, step: CourierStep, before: map<Id, Route>)
    requires rid in p.db.routes && rid in before && RouteReadable(before[rid]) && LosesNoRoute(before, p.db.routes)
    ensures LosesNoRoute(before, Conclude(p, rid, courier, step).db.routes) <==> (p.ok ==> RouteReadable(p.route))
    ensures Conclude(p, rid, courier, step).Done? <==> p.ok && RouteReadable(p.route)
    ensures Conclude(p, rid, courier, step).db.missions == p.db.missions
  {
    if p.ok {
      assert Conclude(p, rid, courier, step).db.routes[rid] == OverwriteRoute(p.db.routes[rid], p.route);
    }
  }

  /**
   A courier request loses no row if and only if it is in time: the mission it completes was not reached later
   in the day, a start lies before a stored finish, and a finish after a stored start.
   */
  lemma RequestLosesNoRow(db: Db, dir: Directory, user: Id, rq: Request, now: Instant)
    ensures LosesNoRow(db, SetState(db, dir, user, rq, now).db) <==> InTime(db, dir, user, rq, now)
  {
    hide LosesNoRoute, LosesNoMission, RouteReadable, Process, Conclude, MissionGiven, MissionInTime;
    NothingLost(db);
    if Granted(db, dir, user, rq) {
      var courier := dir.courierOf[user];
      var db1 := WithCourier(db, courier, rq);
      SameForNewCourier(db, courier, rq, now);
      HandlerLosesTheMission(db1, dir, user, courier, rq, now);
      HandlerRoute(db1, dir, user, courier, rq, now);
      ConcludeLosesTheRoute(Process(db1, dir, user, courier, rq, now), rq.route, courier, rq.step, db.routes);
    } else {
      RefusedLosesNothing(db, dir, user, rq, now);
    }
  }

  lemma SameForNewCourier(db: Db, courier: Id, rq: Request, now: Instant)
    ensures var db1 := WithCourier(db, courier, rq);
      && db1.routes == db.routes && db1.missions == db.missions
      && (MissionGiven(db1, rq) <==> MissionGiven(db, rq))
      && (rq.route in db.routes && (NeedsOrder(rq.step) ==> MissionGiven(db, rq)) ==>
            (MissionInTime(db1, rq, now) <==> MissionInTime(db, rq, now)))
  {
    hide MissionReadable;
  }

  lemma RefusedLosesNothing(db: Db, dir: Directory, user: Id, rq: Request, now: Instant)
    requires !Granted(db, dir, user, rq)
    ensures var end := SetState(db, dir, user, rq, now).db; end.routes == db.routes && end.missions == db.missions
  {
    hide Process, Conclude, RouteReadable, MissionReadable;
  }

  /** A start, a return or a finish that gets through succeeds if and only if it is in time. */
  lemma SucceedsExactlyInTime(db: Db, dir: Directory, user: Id, rq: Request, now: Instant)
    requires rq.step.StartRoute? || rq.step.FinishRoute? || rq.step.ReturnToHub?
    requires Granted(db, dir, user, rq)
    ensures SetState(db, dir, user, rq, now).Done? <==> InTime(db, dir, user, rq, now)
  {
    hide RouteReadable, MissionReadable, Process, Conclude, MissionGiven, LosesNoRoute;
    var courier := dir.courierOf[user];
    var db1 := WithCourier(db, courier, rq);
    SameForNewCourier(db, courier, rq, now);
    HandlerRoute(db1, dir, user, courier, rq, now);
    ConcludeLosesTheRoute(Process(db1, dir, user, courier, rq, now), rq.route, courier, rq.step, db.routes);
    if rq.step.ReturnToHub? {
      ReturnInTime(db1, dir, user, courier, rq, now);
    }
  }

  lemma ReturnInTime(db: Db, dir: Directory, user: Id, courier: Id, rq: Request, now: Instant)
    requires rq.step.ReturnToHub? && RouteAssigned(db, rq.route, courier) && MissionGiven(db, rq)
    ensures Process(db, dir, user, courier, rq, now).ok <==> MissionInTime(db, rq, now)
  {
    hide RouteReadable, Completed;
    CompletionKeepsReadable(db.missions[MissionOn(db.missions, rq.order.value, rq.route).id], TimeOf(now));
  }

  /** Leaving for the next delivery succeeds if and only if it is in time and no lookup of the next mission fails. */
  lemma NextSucceedsExactly(db: Db, dir: Directory, user: Id, rq: Request, now: Instant)
    requires rq.step.StartNextDelivery? && Granted(db, dir, user, rq)
    ensures var m := MissionOn(db.missions, rq.order.value, rq.route).id;
            var missions := db.missions[m := Completed(db.missions[m], TimeOf(now))];
            var next := NextByPosition(missions, rq.route, PositionAfter(db.missions[m]));
      SetState(db, dir, user, rq, now).Done?
      <==> InTime(db, dir, user, rq, now) && !next.Many?
           && (next.One? ==> next.id in missions && MissionReadable(missions[next.id]))
  {
    hide RouteReadable, MissionReadable, Process, Conclude, MissionGiven, LosesNoRoute, NextByPosition, Completed;
    var courier := dir.courierOf[user];
    var db1 := WithCourier(db, courier, rq);
    SameForNewCourier(db, courier, rq, now);
    HandlerRoute(db1, dir, user, courier, rq, now);
    ConcludeLosesTheRoute(Process(db1, dir, user, courier, rq, now), rq.route, courier, rq.step, db.routes);
    NextInTime(db1, dir, user, courier, rq, now);
  }

  lemma NextInTime(db: Db, dir: Directory, user: Id, courier: Id, rq: Request, now: Instant)
    requires rq.step.StartNextDelivery? && RouteAssigned(db, rq.route, courier) && MissionGiven(db, rq)
    ensures var m := MissionOn(db.missions, rq.order.value, rq.route).id;
            var missions := db.missions[m := Completed(db.missions[m], TimeOf(now))];
            var next := NextByPosition(missions, rq.route, PositionAfter(db.missions[m]));
      Process(db, dir, user, courier, rq, now).ok
      <==> MissionInTime(db, rq, now) && !next.Many?
           && (next.One? ==> next.id in missions && MissionReadable(missions[next.id]))
  {
    hide NextByPosition, MissionReadable;
    CompletionKeepsReadable(db.missions[MissionOn(db.missions, rq.order.value, rq.route).id], TimeOf(now));
  }

  /** An interrupted request that is in time loses no row either. */
  lemma StageLosesNoRow(db: Db, dir: Directory, user: Id, rq: Request, now: Instant, mid: Db)
    requires DuringCourier(db, dir, user, rq, now, mid) && InTime(db, dir, user, rq, now)
    ensures LosesNoRow(db, mid)
  {
    hide DuringCourier, SetState, InTime, LosesNoRoute, LosesNoMission;
    NothingLost(db);
    CommitsMix(db, dir, user, rq, now, mid);
    RequestLosesNoRow(db, dir, user, rq, now);
  }

  // ---------------------------------------------------------------- planning, cancelling, sweeping

  /** Routes may have been cancelled and missions given another status; all else is the same. */
  predicate OnlyStatuses(db: Db, db': Db) {
    && db'.routes.Keys == db.routes.Keys
    && (forall r <- db.routes :: db'.routes[r] == db.routes[r]
                                 || db'.routes[r] == db.routes[r].(status := RouteStatus.Cancelled))
    && db'.missions.Keys == db.missions.Keys
    && (forall m <- db.missions :: db'.missions[m] == db.missions[m].(status := db'.missions[m].status))
  }

  lemma StatusesLoseNoRow(db: Db, db': Db)
    requires OnlyStatuses(db, db')
    ensures LosesNoRow(db, db')
  {
  }

  lemma SweepWritesStatuses(db: Db, t: Time, mid: Db)
    requires DuringSweep(db, t, mid)
    ensures OnlyStatuses(db, mid)
  {
    var rs, ms, os :| SweepProgress(db, t, rs, ms, os) && mid == SweepState(db, rs, ms, os);
  }

  lemma CancelWritesStatuses(db: Db, rid: Id, mid: Db)
    requires DuringCancel(db, rid, mid)
    ensures OnlyStatuses(db, mid)
  {
    hide WithUnassigned, RouteReadable;
  }

  /** A planned route has not been driven. */
  ghost predicate NewPlan(plan: Plan) {
    && RouteReadable(plan.route) && plan.route.actualStart.None? && plan.route.actualFinish.None?
    && plan.route.status == RouteStatus.Scheduled
    && forall p <- plan.missions :: MissionReadable(p.row) && p.row.actualArrival.None? && p.row.actualWaiting.None?
  }

  lemma DecidedPlanIsNew(db: Db, dir: Directory, g: Generation)
    requires Decide(db, dir, g).Persist?
    ensures NewPlan(Decide(db, dir, g).plan)
    ensures Decide(db, dir, g).plan.route.terminalId == g.metadata.terminal
    ensures var live := CheckLive(db.routes, g.metadata.terminal);
      !live.Blocked? && Decide(db, dir, g).plan.active == if live.Join? then Some(live.route) else None
  {
    hide CheckLive, MapSteps, Plannable;
    var steps := g.response.value.routes[0].steps;
    var plan := Decide(db, dir, g).plan;
    PositionsFollowVisits(steps, plan.routeId);
    forall p | p in plan.missions
      ensures MissionReadable(p.row) && p.row.actualArrival.None? && p.row.actualWaiting.None?
    {
      assert Fresh(p.row, plan.routeId, |VisitFlags(steps)|);
    }
  }

  lemma MissionLosesNoRow(db: Db, p: Planned)
    requires MissionReadable(p.row)
    ensures LosesNoRow(db, WithMission(db, p))
  {
    hide MissionsFor, Sole;
  }

  lemma {:induction false} MissionsLoseNoRow(db: Db, ps: seq<Planned>, k: nat)
    requires k <= |ps| && forall p <- ps :: MissionReadable(p.row)
    ensures LosesNoRow(db, WithMissions(db, ps, k))
  {
    hide MissionReadable, MissionsStorable, WithMission, LosesNoRow;
    if k == 0 {
      SameLosesNoRow(db);
    } else {
      MissionsLoseNoRow(db, ps, k - 1);
      assert ps[k - 1] in ps;
      MissionLosesNoRow(WithMissions(db, ps, k - 1), ps[k - 1]);
      SameLosesNoRow(WithMissions(db, ps, k - 1));
      if MissionsStorable(db, ps, k - 1) {
        LosesNoRowTwice(db, WithMissions(db, ps, k - 1), WithMissions(db, ps, k));
      }
    }
  }

  lemma SameLosesNoRow(db: Db)
    ensures LosesNoRow(db, db)
  {
    NothingLost(db);
  }

  lemma RouteLosesNoRow(db: Db, plan: Plan, now: Instant)
    requires NewPlan(plan)
    ensures LosesNoRoute(db.routes, WithRoute(db, plan, now).routes)
  {
  }

  lemma PersistLosesNoRow(db: Db, plan: Plan, now: Instant, mid: Db)
    requires NewPlan(plan) && DuringPersist(db, plan, now, mid)
    ensures LosesNoRow(db, mid)
    ensures mid.routes == db.routes || mid.routes == WithRoute(db, plan, now).routes
  {
    hide LosesNoRoute, LosesNoMission, PersistState, WithMissions, WithStatuses, RouteReadable;
    var k: nat :| k <= 1 + |plan.orders| + |plan.missions| && mid == PersistState(db, plan, now, k);
    RouteLosesNoRow(db, plan, now);
    StageRoutes(db, plan, now, k);
    var i, j := StageForm(db, plan, now, k);
    var base := WithRoute(db, plan, now).(orders := WithStatuses(db.orders, plan, i));
    assert base.missions == db.missions;
    MissionsLoseNoRow(base, plan.missions, j);
    NothingLost(db);
  }

  lemma StageRoutes(db: Db, plan: Plan, now: Instant, k: nat)
    requires k <= 1 + |plan.orders| + |plan.missions|
    ensures PersistState(db, plan, now, k).routes == if k == 0 then db.routes else WithRoute(db, plan, now).routes
  {
    hide RouteReadable, JoinedRoute, WithStatuses;
    if k > 1 + |plan.orders| {
      MissionsLeaveRoutes(Prepared(db, plan, now), plan.missions, k - 1 - |plan.orders|);
    }
  }

  lemma {:induction false} MissionsLeaveRoutes(db: Db, ps: seq<Planned>, k: nat)
    requires k <= |ps|
    ensures WithMissions(db, ps, k).routes == db.routes
  {
    hide MissionReadable, MissionsStorable, ExistingMission, CanInsert;
    if k == 0 {
    } else {
      MissionsLeaveRoutes(db, ps, k - 1);
    }
  }

  lemma GenerateLosesNoRow(db: Db, dir: Directory, g: Generation, now: Instant, mid: Db)
    requires DuringGenerate(db, dir, g, now, mid)
    ensures LosesNoRow(db, mid)
  {
    hide AfterSweep, Decide, DuringSweep, DuringPersist, NewPlan, OnlyStatuses, LosesNoRoute, LosesNoMission;
    var t := TimeOf(now);
    var db1 := AfterSweep(db, t);
    SweepIsStage(db, t);
    SweepWritesStatuses(db, t, db1);
    StatusesLoseNoRow(db, db1);
    if DuringSweep(db, t, mid) {
      SweepWritesStatuses(db, t, mid);
      StatusesLoseNoRow(db, mid);
    } else if Decide(db1, dir, g).Persist? {
      DecidedPlanIsNew(db1, dir, g);
      PersistLosesNoRow(db1, Decide(db1, dir, g).plan, now, mid);
      LosesNoRowTwice(db, db1, mid);
    }
  }

  lemma OrderCallLosesNoRow(db: Db, c: OrderCall)
    requires CallFits(c)
    ensures LosesNoRow(db, AfterOrderCall(db, c)) && AfterOrderCall(db, c).routes == db.routes
  {
    hide RouteReadable, MissionReadable, FitsColumns, AfterPostpone;
  }

  lemma ScanLosesNoRow(db: Db, rid: Id, barcode: string, now: Instant)
    ensures LosesNoRow(db, Scan(db, rid, barcode, now).db) && Scan(db, rid, barcode, now).db.routes == db.routes
  {
  }

  // ---------------------------------------------------------------- runs

  /** A courier request of this event, whole or interrupted, is in time. */
  predicate EventInTime(db: Db, dir: Directory, e: Event) {
    ByCourier(e) ==> InTime(db, dir, e.op.user, e.op.request, e.at)
  }

  /** Only a courier request that is not in time can lose a row, and unless it is interrupted it does. */
  lemma StepLosesNoRow(db: Db, dir: Directory, e: Event, next: Db)
    requires Leads(db, dir, e, next)
    ensures EventInTime(db, dir, e) ==> LosesNoRow(db, next)
    ensures !e.op.CourierInterrupted? && LosesNoRow(db, next) ==> EventInTime(db, dir, e)
  {
    hide LosesNoRow, DuringGenerate, AfterGenerate, DuringCancel, AfterCancel, SetState, DuringCourier, Scan,
      AfterOrderCall, InTime, OnlyStatuses;
    match e.op {
      case Generate(g) =>
        WholeGenerationIsAStage(db, dir, g, e.at);
        GenerateLosesNoRow(db, dir, g, e.at, next);
      case GenerateInterrupted(g) => GenerateLosesNoRow(db, dir, g, e.at, next);
      case Cancel(rid) =>
        WholeCancellationIsAStage(db, rid);
        CancelWritesStatuses(db, rid, next);
        StatusesLoseNoRow(db, next);
      case CancelInterrupted(rid) =>
        CancelWritesStatuses(db, rid, next);
        StatusesLoseNoRow(db, next);
      case Courier(user, rq) => RequestLosesNoRow(db, dir, user, rq, e.at);
      case CourierInterrupted(user, rq) =>
        if InTime(db, dir, user, rq, e.at) {
          StageLosesNoRow(db, dir, user, rq, e.at, next);
        }
      case ScanParcel(rid, barcode) => ScanLosesNoRow(db, rid, barcode, e.at);
      case OrderChange(c) => OrderCallLosesNoRow(db, c);
    }
  }

  lemma ReadableStays(db: Db, next: Db)
    requires AllReadable(db)
    ensures AllReadable(next) <==> LosesNoRow(db, next)
  {
    hide RouteReadable, MissionReadable;
  }

  /**
   Every stored row stays readable in a run over any number of days, interrupted anywhere, in which every
   courier request is in time.
   */
  lemma {:induction false} EveryRowStaysReadable(dir: Directory, states: seq<Db>, events: seq<Event>, k: nat)
    requires Run(dir, states, events) && k <= |events| && AllReadable(states[0])
    requires forall i :: 0 <= i < k ==> EventInTime(states[i], dir, events[i])
    ensures AllReadable(states[k])
  {
    hide AllReadable, Supplied, Leads, EventInTime, LosesNoRow;
    if k == 0 {
    } else {
      EveryRowStaysReadable(dir, states, events, k - 1);
      RunStep(dir, states, events, k - 1);
      StepLosesNoRow(states[k - 1], dir, events[k - 1], states[k]);
      ReadableStays(states[k - 1], states[k]);
    }
  }

  /** When the requests run to their ends, all states are readable if and only if all requests are in time. */
  lemma {:induction false} ReadableExactlyInTime(dir: Directory, states: seq<Db>, events: seq<Event>, k: nat)
    requires Run(dir, states, events) && k <= |events| && AllReadable(states[0])
    requires forall i :: 0 <= i < k ==> !events[i].op.CourierInterrupted?
    ensures (forall i :: 0 <= i <= k ==> AllReadable(states[i]))
       <==> forall i :: 0 <= i < k ==> EventInTime(states[i], dir, events[i])
  {
    hide AllReadable, Supplied, Leads, EventInTime, LosesNoRow;
    if k == 0 {
    } else {
      ReadableExactlyInTime(dir, states, events, k - 1);
      RunStep(dir, states, events, k - 1);
      if AllReadable(states[k - 1]) {
        StepLosesNoRow(states[k - 1], dir, events[k - 1], states[k]);
        ReadableStays(states[k - 1], states[k]);
      }
    }
  }
}
