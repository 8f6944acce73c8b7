/** Generating a route, column by column: what is refused, what is planned, and which orders become SCHEDULED. */
module GenerationColumns {
  import opened Base
  import opened Domain
  import opened Tables
  import opened Store
  import opened CourierSpec
  import opened CourierFrame
  import opened SolverOutput
  import opened Planning
  import opened PlanPartition
  import opened PlanningColumns
  import opened OrderCalls
  import opened Lifecycle
  import opened Registered
  import opened Readable
  import opened LiveRoutes
  import Billing

  // ---------------------------------------------------------------- the limit and the live-route check

  /** A customer with one usage row has `n` deliveries left; no other user is limited. */
  ghost predicate LimitAllows(usage: map<Id, Usage>, dir: Directory, user: Id, n: nat) {
    forall u <- usage ::
      user in dir.customerOf && (forall x <- usage :: usage[x].customer == dir.customerOf[user] <==> x == u) ==>
        usage[u].count + n <= usage[u].limit
  }

  lemma LimitIs(usage: map<Id, Usage>, dir: Directory, user: Id, n: nat)
    ensures Billing.CanGenerate(usage, dir, user, n) <==> LimitAllows(usage, dir, user, n)
  {
    if user in dir.customerOf {
      var rows := UsageRowsOf(usage, dir.customerOf[user]);
      forall u | u in usage
        ensures (forall x <- usage :: usage[x].customer == dir.customerOf[user] <==> x == u) <==> Sole(rows) == One(u)
      {
        SoleIs(rows, u);
        assert forall x <- usage :: x in rows <==> usage[x].customer == dir.customerOf[user];
        if forall x <- usage :: usage[x].customer == dir.customerOf[user] <==> x == u {
          assert rows == {u};
        }
        if rows == {u} {
          assert forall x <- usage :: x in rows <==> x == u;
        }
      }
    }
  }

  /** Among the hundred newest routes of the terminal, equal times by row id. */
  predicate AmongNewest(routes: map<Id, Route>, terminal: Id, r: Id) {
    && r in routes && routes[r].terminalId == terminal
    && |set x | x in routes && routes[x].terminalId == terminal
               && (routes[x].createdAt > routes[r].createdAt || (routes[x].createdAt == routes[r].createdAt && x < r))|
       < 100
  }

  ghost predicate NewestReadable(routes: map<Id, Route>, terminal: Id) {
    forall r: Id :: AmongNewest(routes, terminal, r) ==> RouteReadable(routes[r])
  }

  lemma RecentIsAmongNewest(routes: map<Id, Route>, terminal: Id, r: Id)
    ensures r in Recent(routes, terminal) <==> AmongNewest(routes, terminal, r)
  {
    if r in routes && routes[r].terminalId == terminal {
      assert NewerRoutes(routes, r)
          == set x | x in routes && routes[x].terminalId == terminal
                     && (routes[x].createdAt > routes[r].createdAt
                         || (routes[x].createdAt == routes[r].createdAt && x < r));
    }
  }

  /** A route of the terminal under way, among its newest hundred when these can all be read. */
  ghost predicate RouteUnderWay(routes: map<Id, Route>, terminal: Id) {
    && NewestReadable(routes, terminal)
    && exists r: Id :: AmongNewest(routes, terminal, r)
                   && routes[r].status in {RouteStatus.Loading, RouteStatus.Ongoing, RouteStatus.ReturnToHub}
  }

  /** The oldest scheduled route among them. */
  ghost predicate OldestWaiting(routes: map<Id, Route>, terminal: Id, r: Id) {
    && NewestReadable(routes, terminal) && AmongNewest(routes, terminal, r) && routes[r].status.Scheduled?
    && forall x: Id :: AmongNewest(routes, terminal, x) && routes[x].status.Scheduled? && x != r ==>
                     || routes[x].createdAt > routes[r].createdAt
                     || (routes[x].createdAt == routes[r].createdAt && x < r)
  }

  lemma RecentRoutesAre(routes: map<Id, Route>, terminal: Id)
    ensures forall r: Id :: r in RecentRoutes(routes, terminal)
                            <==> NewestReadable(routes, terminal) && AmongNewest(routes, terminal, r)
  {
    hide RouteReadable, AmongNewest, Recent;
    RecentIs(routes, terminal);
    forall r: Id ensures r in Recent(routes, terminal) <==> AmongNewest(routes, terminal, r) {
      RecentIsAmongNewest(routes, terminal, r);
    }
    if AllRead(routes, Recent(routes, terminal)) {
      assert NewestReadable(routes, terminal);
    }
    if NewestReadable(routes, terminal) {
      RecentAreRoutes(routes, terminal);
      assert AllRead(routes, Recent(routes, terminal));
    }
  }

  lemma RecentAreRoutes(routes: map<Id, Route>, terminal: Id)
    ensures Recent(routes, terminal) <= routes.Keys
  {
  }

  /** The check blocks for a route under way, and otherwise joins the oldest waiting one, if there is one. */
  lemma CheckColumns(routes: map<Id, Route>, terminal: Id)
    ensures CheckLive(routes, terminal).Blocked? <==> RouteUnderWay(routes, terminal)
    ensures CheckLive(routes, terminal).Join? ==> OldestWaiting(routes, terminal, CheckLive(routes, terminal).route)
  {
    hide AmongNewest, RouteReadable, RecentRoutes;
    RecentRoutesAre(routes, terminal);
    RecentRoutesExist(routes, terminal);
  }

  lemma RecentRoutesExist(routes: map<Id, Route>, terminal: Id)
    ensures RecentRoutes(routes, terminal) <= routes.Keys
  {
    hide RouteReadable;
  }

  // ---------------------------------------------------------------- what is refused

  /** An order that can be planned for the request: not yet over, and of its courier, hub and shift. */
  predicate Acceptable(o: Order, md: Metadata) {
    && (o.status == OrderStatus.Registered || o.status == OrderStatus.Unassigned || o.status == OrderStatus.Scheduled)
    && o.courierId == md.courier && o.terminalId == md.terminal && o.shiftId == md.shift
  }

  /** A visit that becomes a mission: it names an order, can be converted, and has no negative figure. */
  predicate GoodVisit(s: Step) {
    s.Visit? && s.order.Some? && s.mappable && s.duration >= 0 && s.distance >= 0 && s.service >= 0 && s.waiting >= 0
  }

  /** The route's own figures pass its validation. */
  predicate GoodFigures(sr: SolverRoute, md: Metadata) {
    md.start < md.finish && sr.totalDuration >= 0 && sr.totalDistance >= 0
  }

  /** The checks before the solver's answer is looked at. */
  ghost predicate PassesChecks(db: Db, dir: Directory, g: Generation) {
    && LimitAllows(db.usage, dir, g.user, |g.requested|)
    && !RouteUnderWay(db.routes, g.metadata.terminal)
    && g.fetched != [] && g.entitiesFound
    && (forall o <- g.fetched :: o in db.orders && Acceptable(db.orders[o], g.metadata))
    && g.response.Some?
  }

  ghost predicate HasMissions(g: Generation)
    requires g.response.Some?
  {
    g.response.value.routes != [] && exists s <- g.response.value.routes[0].steps :: GoodVisit(s)
  }

  lemma {:induction false} MissionsExactlyOfGoodVisits(steps: seq<Step>, routeId: Id)
    ensures MapSteps(steps, routeId) != [] <==> exists s <- steps :: GoodVisit(s)
  {
    if steps == [] {
    } else {
      var init, last := steps[..|steps| - 1], steps[|steps| - 1];
      MissionsExactlyOfGoodVisits(init, routeId);
      assert steps == init + [last];
      if MapSteps(init, routeId) != [] {
        var s :| s in init && GoodVisit(s);
        assert s in steps;
      } else if GoodVisit(last) {
        assert last in steps;
      } else {
        assert forall s <- steps :: s in init || s == last;
      }
    }
  }

  lemma FiguresAreChecked(sr: SolverRoute, md: Metadata, missions: nat)
    ensures RouteOf(sr, md, missions).Some? <==> GoodFigures(sr, md)
  {
  }

  /**
   A generation is refused if and only if a check fails, or the solver's route has missions but figures its
   validation rejects. Past the checks, nothing is routed if and only if no visit became a mission.
   */
  lemma RefusedExactly(db: Db, dir: Directory, g: Generation)
    ensures Decide(db, dir, g).Refused?
       <==> !PassesChecks(db, dir, g) || (HasMissions(g) && !GoodFigures(g.response.value.routes[0], g.metadata))
    ensures Decide(db, dir, g).NothingRouted? <==> PassesChecks(db, dir, g) && !HasMissions(g)
  {
    hide CheckLive, RouteUnderWay, LimitAllows, MapSteps, RouteOf, GoodVisit, GoodFigures;
    LimitIs(db.usage, dir, g.user, |g.requested|);
    CheckColumns(db.routes, g.metadata.terminal);
    if g.response.Some? && g.response.value.routes != [] {
      var sr := g.response.value.routes[0];
      MissionsExactlyOfGoodVisits(sr.steps, g.metadata.routeId);
      FiguresAreChecked(sr, g.metadata, |MapSteps(sr.steps, g.metadata.routeId)|);
    }
  }

  // ---------------------------------------------------------------- what is planned

  /** The route of a plan: owner and times of the request, figures of the solver, nothing driven yet. */
  predicate PlannedRoute(r: Route, sr: SolverRoute, md: Metadata, missions: nat) {
    && r.terminalId == md.terminal && r.shiftId == md.shift && r.courierId == md.courier
    && r.start == md.start && r.finish == md.finish && r.status == RouteStatus.Scheduled
    && r.numberOfMissions == missions && r.distance == Some(sr.totalDistance)
    && r.duration.Some? && r.duration.value * 60 <= sr.totalDuration < (r.duration.value + 1) * 60
    && r.actualStart.None? && r.actualFinish.None? && r.currentMission.None? && r.totalActualWaiting.None?
    && r.loadingStart.None? && r.arrivedAtHub.None?
  }

  /** A decided plan is for the fetched orders, and joins the oldest waiting route of the terminal if there is one. */
  lemma DecidedColumns(db: Db, dir: Directory, g: Generation)
    requires Decide(db, dir, g).Persist?
    ensures var plan := Decide(db, dir, g).plan;
      && g.response.Some? && g.response.value.routes != []
      && plan.orders == g.fetched && plan.routeId == g.metadata.routeId
      && (forall o: Id :: o in plan.unassigned <==> o in g.response.value.unassigned)
      && PlannedRoute(plan.route, g.response.value.routes[0], g.metadata, |plan.missions|)
      && plan.missions == MapSteps(g.response.value.routes[0].steps, g.metadata.routeId)
      && (plan.active.Some? ==> OldestWaiting(db.routes, g.metadata.terminal, plan.active.value))
      && (plan.active.None? ==> forall r: Id :: !OldestWaiting(db.routes, g.metadata.terminal, r))
  {
    hide MapSteps, OldestWaiting, Plannable;
    CheckColumns(db.routes, g.metadata.terminal);
    if Decide(db, dir, g).plan.active.None? {
      forall r: Id ensures !OldestWaiting(db.routes, g.metadata.terminal, r) {
        WaitingIsJoined(db.routes, g.metadata.terminal, r);
      }
    }
  }

  lemma WaitingIsJoined(routes: map<Id, Route>, terminal: Id, r: Id)
    ensures OldestWaiting(routes, terminal, r) ==> !CheckLive(routes, terminal).NoneLive?
  {
    hide AmongNewest, RouteReadable, RecentRoutes;
    RecentRoutesAre(routes, terminal);
    RecentRoutesExist(routes, terminal);
    if OldestWaiting(routes, terminal, r) {
      assert OldestScheduled(routes, RecentRoutes(routes, terminal), r);
    }
  }

  /** The mission of a visit: its order, place and planned figures, and nothing driven yet. */
  predicate PlannedMission(m: Mission, s: Step, position: nat, routeId: Id) {
    && s.Visit? && m.routeId == routeId && s.order == Some(m.orderId) && m.position == Some(position)
    && m.arrival == Some(s.arrival) && m.cumulativeDuration == Some(s.duration)
    && m.cumulativeDistance == Some(s.distance) && m.serviceTime == Some(s.service) && m.waiting == Some(s.waiting)
    && m.status == Some(Known(MissionStatus.Scheduled))
    && m.actualArrival.None? && m.actualFinish.None? && m.actualServiceTime.None? && m.actualWaiting.None?
    && m.actualStart.None? && m.actualCumulativeDuration.None? && m.actualCumulativeDistance.None?
    && m.loadingScan.None? && m.deliveryScan.None? && m.deliveryBarcode.None? && m.comment.None?
  }

  function VisitsIn(steps: seq<Step>): nat {
    if steps == [] then 0 else VisitsIn(steps[..|steps| - 1]) + if steps[|steps| - 1].Visit? then 1 else 0
  }

  lemma {:induction false} FlagsCountVisits(steps: seq<Step>)
    ensures |VisitFlags(steps)| == VisitsIn(steps)
  {
    if steps == [] {
    } else {
      FlagsCountVisits(steps[..|steps| - 1]);
    }
  }

  /** Every good visit becomes a mission with its figures, at the number it has among all visits, good or not. */
  lemma {:induction false} VisitColumns(steps: seq<Step>, routeId: Id, i: nat) returns (p: Planned)
    requires i < |steps| && GoodVisit(steps[i])
    ensures p in MapSteps(steps, routeId) && p.id == steps[i].missionId
    ensures PlannedMission(p.row, steps[i], VisitsIn(steps[..i + 1]), routeId)
  {
    var last := |steps| - 1;
    if i < last {
      p := VisitColumns(steps[..last], routeId, i);
      assert steps[..last][..i + 1] == steps[..i + 1];
    } else {
      FlagsCountVisits(steps);
      assert steps[..i + 1] == steps;
      p := MissionOf(steps[last], |VisitFlags(steps)|, routeId);
    }
  }

  /** And there is no other mission. */
  lemma {:induction false} MissionColumns(steps: seq<Step>, routeId: Id, p: Planned) returns (i: nat)
    requires p in MapSteps(steps, routeId)
    ensures i < |steps| && GoodVisit(steps[i]) && p.id == steps[i].missionId
    ensures PlannedMission(p.row, steps[i], VisitsIn(steps[..i + 1]), routeId)
  {
    var last := |steps| - 1;
    if p in MapSteps(steps[..last], routeId) {
      i := MissionColumns(steps[..last], routeId, p);
      assert steps[..last][..i + 1] == steps[..i + 1];
    } else {
      i := last;
      FlagsCountVisits(steps);
      assert steps[..i + 1] == steps;
    }
  }

  // ---------------------------------------------------------------- what is written

  /** A joined route keeps its owner and creation time and takes over the plan in every other column. */
  predicate Joined(was: Route, plan: Route, r: Route) {
    && r.terminalId == was.terminalId && r.shiftId == was.shiftId && r.courierId == was.courierId
    && r.createdAt == was.createdAt
    && r == plan.(terminalId := r.terminalId, shiftId := r.shiftId, courierId := r.courierId, createdAt := r.createdAt)
  }

  /** The plan's route was stored: a new one under a free id, a joined one over its row, and it can be read back. */
  predicate RouteStored(db: Db, plan: Plan, routes: map<Id, Route>) {
    if plan.active.Some? then
      plan.active.value in db.routes && plan.active.value in routes && RouteReadable(routes[plan.active.value])
    else plan.routeId !in db.routes && RouteReadable(plan.route)
  }

  /** What a plan does to the routes and, if its route is stored, to the orders. */
  lemma PersistColumns(db: Db, plan: Plan, now: Instant)
    ensures var after := AfterPersist(db, plan, now);
      && (plan.active.None? ==>
            after.routes == if plan.routeId in db.routes then db.routes
                            else db.routes[plan.routeId := plan.route.(createdAt := now)])
      && (plan.active.Some? && plan.active.value in db.routes ==>
            var rid := plan.active.value;
            && rid in after.routes && Joined(db.routes[rid], plan.route, after.routes[rid])
            && after.routes == db.routes[rid := after.routes[rid]])
      && after.orders.Keys == db.orders.Keys
      && (forall o <- db.orders ::
            if RouteStored(db, plan, after.routes) && o in plan.orders then
              RestatedTo(db.orders[o], after.orders[o],
                         if o in plan.unassigned then OrderStatus.Unassigned else OrderStatus.Scheduled)
            else after.orders[o] == db.orders[o])
      && after.couriers == db.couriers && after.usage == db.usage
  {
    hide RouteReadable, Restatus, RestatedTo, WithMissions;
    StageRoutes(db, plan, now, 1 + |plan.orders| + |plan.missions|);
    var i, j := StageForm(db, plan, now, 1 + |plan.orders| + |plan.missions|);
    OrdersAfterPersist(db, plan, now);
    forall o | o in db.orders
      ensures RestatedTo(db.orders[o], Restatus(db.orders[o], PlannedStatus(plan, o)), PlannedStatus(plan, o))
    {
      RestatusColumns(db.orders[o], PlannedStatus(plan, o));
    }
  }

  lemma OrdersAfterPersist(db: Db, plan: Plan, now: Instant)
    ensures var after := AfterPersist(db, plan, now);
      && after.orders == (if RouteStorable(db, plan) then WithStatuses(db.orders, plan, |plan.orders|) else db.orders)
      && after.couriers == db.couriers && after.usage == db.usage
    ensures plan.orders[..|plan.orders|] == plan.orders
  {
    hide RouteReadable, WithStatuses, JoinedRoute;
    if RouteStorable(db, plan) && |plan.missions| > 0 {
      MissionsLeaveTheRest(Prepared(db, plan, now), plan.missions, |plan.missions|);
    }
  }

  lemma {:induction false} MissionsLeaveTheRest(db: Db, ps: seq<Planned>, k: nat)
    requires k <= |ps|
    ensures WithMissions(db, ps, k) == db.(missions := WithMissions(db, ps, k).missions)
  {
    hide MissionReadable, MissionsStorable, ExistingMission, CanInsert;
    if k == 0 {
    } else {
      MissionsLeaveTheRest(db, ps, k - 1);
    }
  }

  /**
   What a generation leaves when nothing is planned: a refused one only its sweep, one that routes nothing also
   every fetched order UNASSIGNED.
   */
  lemma NothingPlannedColumns(db: Db, dir: Directory, g: Generation, now: Instant)
    ensures var db1, after := AfterSweep(db, TimeOf(now)), AfterGenerate(db, dir, g, now);
      && (Decide(db1, dir, g).Refused? ==> after == db1)
      && (Decide(db1, dir, g).NothingRouted? ==>
            && after == db1.(orders := after.orders) && after.orders.Keys == db1.orders.Keys
            && forall o <- db1.orders ::
                 if o in g.fetched then RestatedTo(db1.orders[o], after.orders[o], OrderStatus.Unassigned)
                 else after.orders[o] == db1.orders[o])
  {
    hide AfterSweep, Decide, Restatus, RestatedTo;
    var db1 := AfterSweep(db, TimeOf(now));
    forall o | o in db1.orders
      ensures RestatedTo(db1.orders[o], Restatus(db1.orders[o], OrderStatus.Unassigned), OrderStatus.Unassigned)
    {
      RestatusColumns(db1.orders[o], OrderStatus.Unassigned);
    }
  }

  /** The one mission of an order. */
  ghost predicate OnlyMissionFor(missions: map<Id, Mission>, order: Id, m: Id) {
    m in missions && forall x <- missions :: missions[x].orderId == order <==> x == m
  }

  /** A planned mission written over an earlier one: the route and the driven columns stay. */
  predicate Replanned(was: Mission, p: Mission, m: Mission) {
    m == was.(arrival := if p.arrival.Some? then p.arrival else was.arrival,
              cumulativeDuration := if p.cumulativeDuration.Some? then p.cumulativeDuration else was.cumulativeDuration,
              cumulativeDistance := if p.cumulativeDistance.Some? then p.cumulativeDistance else was.cumulativeDistance,
              serviceTime := if p.serviceTime.Some? then p.serviceTime else was.serviceTime,
              waiting := if p.waiting.Some? then p.waiting else was.waiting,
              position := if p.position.Some? then p.position else was.position,
              status := if p.status.Some? then p.status else was.status,
              postponed := m.postponed)
  }

  /**
   One mission of a plan: an earlier readable mission of the order is planned anew on the route it has; an
   order without a mission gets one, under a new id, if route and order exist; otherwise nothing is written.
   */
  lemma MissionWritten(db: Db, p: Planned, steps: seq<Step>, routeId: Id)
    requires p in MapSteps(steps, routeId)
    ensures var after := WithMission(db, p).missions; var o := p.row.orderId;
      && (forall m: Id :: OnlyMissionFor(db.missions, o, m) && MissionReadable(db.missions[m]) ==>
            m in after && Replanned(db.missions[m], p.row, after[m]) && after == db.missions[m := after[m]])
      && ((forall m <- db.missions :: db.missions[m].orderId != o) ==>
            if p.id !in db.missions && p.row.routeId in db.routes && o in db.orders then
              after == db.missions[p.id := p.row.(postponed := None)]
            else after == db.missions)
  {
    hide MissionReadable;
    var o := p.row.orderId;
    var i := MissionColumns(steps, routeId, p);
    PlannedNotPostponed(steps, routeId, p);
    forall m: Id | OnlyMissionFor(db.missions, o, m) ensures MissionsFor(db.missions, o) == {m} {
    }
    forall m: Id ensures Sole(MissionsFor(db.missions, o)) == One(m) <==> MissionsFor(db.missions, o) == {m} {
      SoleIs(MissionsFor(db.missions, o), m);
    }
    if forall m <- db.missions :: db.missions[m].orderId != o {
      assert MissionsFor(db.missions, o) == {};
    }
  }

  lemma {:induction false} PlannedNotPostponed(steps: seq<Step>, routeId: Id, p: Planned)
    requires p in MapSteps(steps, routeId)
    ensures p.row.postponed == Some(FalseText)
  {
    if p in MapSteps(steps[..|steps| - 1], routeId) {
      PlannedNotPostponed(steps[..|steps| - 1], routeId, p);
    }
  }
}
