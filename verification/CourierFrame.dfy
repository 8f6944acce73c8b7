/** What no courier request touches, whatever it is and however it ends. */
module CourierFrame {
  import opened Base
  import opened Domain
  import opened Tables
  import opened Store
  import opened CourierSpec

  /** A mission keeps its links, its place, its plan and its loading scan. */
  predicate SamePlan(m: Mission, m': Mission) {
    && m'.routeId == m.routeId && m'.orderId == m.orderId && m'.position == m.position
    && m'.arrival == m.arrival && m'.cumulativeDuration == m.cumulativeDuration
    && m'.cumulativeDistance == m.cumulativeDistance && m'.serviceTime == m.serviceTime && m'.waiting == m.waiting
    && m'.actualCumulativeDuration == m.actualCumulativeDuration
    && m'.actualCumulativeDistance == m.actualCumulativeDistance
    && m'.loadingScan == m.loadingScan
  }

  /** An order keeps its owner, barcode and lineage, and a window it has; its status may become terminal. */
  predicate SameOrder(o: Order, o': Order) {
    && o'.terminalId == o.terminalId && o'.shiftId == o.shiftId && o'.courierId == o.courierId
    && o'.barcode == o.barcode && o'.movedAs == o.movedAs
    && (o'.status == o.status || o'.status == OrderStatus.Delivered || o'.status == OrderStatus.Postponed)
    && (HasWindow(o') <==> HasWindow(o)) && (HasWindow(o) ==> o'.earliest == o.earliest && o'.latest == o.latest)
  }

  /** A route keeps its owner, its planned times and its figures. */
  predicate SameRoute(r: Route, r': Route) {
    && r'.terminalId == r.terminalId && r'.shiftId == r.shiftId && r'.courierId == r.courierId
    && r'.start == r.start && r'.finish == r.finish && r'.numberOfMissions == r.numberOfMissions
    && r'.duration == r.duration && r'.distance == r.distance && r'.createdAt == r.createdAt
  }

  ghost predicate Framed(db: Db, db': Db, rid: Id) {
    && db'.routes.Keys == db.routes.Keys
    && (forall r <- db.routes :: SameRoute(db.routes[r], db'.routes[r]) && (r != rid ==> db'.routes[r] == db.routes[r]))
    && db'.missions.Keys == db.missions.Keys
    && (forall m <- db.missions :: SamePlan(db.missions[m], db'.missions[m]))
    && db'.orders.Keys == db.orders.Keys
    && (forall o <- db.orders :: SameOrder(db.orders[o], db'.orders[o]))
    && db'.usage.Keys == db.usage.Keys
  }

  /** Only the rows of one mission and its order, the delivered lists and the usage counts differ. */
  lemma OneMissionFrame(db: Db, db': Db, rid: Id, m: Id, o: Id)
    requires m in db.missions && o in db.orders && m in db'.missions && o in db'.orders
    requires db'.routes == db.routes && db'.missions == db.missions[m := db'.missions[m]]
    requires db'.orders == db.orders[o := db'.orders[o]] && db'.usage.Keys == db.usage.Keys
    requires SamePlan(db.missions[m], db'.missions[m]) && SameOrder(db.orders[o], db'.orders[o])
    ensures Framed(db, db', rid)
  {
    hide HasWindow;
  }

  lemma ArrivalFrame(db: Db, route: Route, rid: Id, m: Id, o: Id, now: Instant)
    requires m in db.missions && o in db.orders
    ensures Framed(db, OnArrival(db, route, m, o, now).db, rid)
  {
    hide MissionReadable;
    var db' := OnArrival(db, route, m, o, now).db;
    assert db.missions == db.missions[m := db.missions[m]] && db.orders == db.orders[o := db.orders[o]];
    OneMissionFrame(db, db', rid, m, o);
  }

  lemma DeliveredFrame(db: Db, dir: Directory, user: Id, courier: Id, route: Route, rid: Id, m: Id, o: Id,
                       comment: Option<string>, now: Instant)
    requires m in db.missions && o in db.orders
    ensures Framed(db, OnDelivered(db, dir, user, courier, route, m, o, comment, now).db, rid)
  {
    hide MissionReadable;
    var db' := OnDelivered(db, dir, user, courier, route, m, o, comment, now).db;
    assert db.missions == db.missions[m := db.missions[m]] && db.orders == db.orders[o := db.orders[o]];
    OneMissionFrame(db, db', rid, m, o);
  }

  lemma UndeliveredFrame(db: Db, route: Route, rid: Id, m: Id, o: Id, rq: Request, now: Instant)
    requires m in db.missions && o in db.orders
    ensures Framed(db, OnUndelivered(db, route, m, o, rq, now).db, rid)
  {
    hide MissionReadable;
    var db' := OnUndelivered(db, route, m, o, rq, now).db;
    assert db.missions == db.missions[m := db.missions[m]] && db.orders == db.orders[o := db.orders[o]];
    OneMissionFrame(db, db', rid, m, o);
  }

  lemma StartFrame(db: Db, rid: Id, route: Route, m: Id, now: Instant)
    ensures Framed(db, OnStartRoute(db, rid, route, m, now).db, rid)
  {
  }

  lemma NextFrame(db: Db, rid: Id, m: Id, o: Id, now: Instant)
    requires m in db.missions && o in db.orders && rid in db.routes
    ensures Framed(db, OnStartNext(db, rid, db.routes[rid], m, now).db, rid)
  {
    hide MissionReadable, RouteReadable, NextByPosition;
    var row := Completed(db.missions[m], TimeOf(now));
    var db1 := db.(missions := db.missions[m := row]);
    assert db.orders == db.orders[o := db.orders[o]];
    OneMissionFrame(db, db1, rid, m, o);
  }

  lemma ReturnFrame(db: Db, rid: Id, route: Route, m: Id, o: Id, now: Instant)
    requires m in db.missions && o in db.orders
    ensures Framed(db, OnReturn(db, route, m, now).db, rid)
  {
    hide MissionReadable;
    assert db.orders == db.orders[o := db.orders[o]];
    OneMissionFrame(db, OnReturn(db, route, m, now).db, rid, m, o);
  }

  lemma FinishFrame(db: Db, rid: Id, route: Route, courier: Id, now: Instant)
    ensures Framed(db, OnFinish(db, rid, route, courier, now).db, rid)
  {
    hide MissionReadable, TotalWaiting, HasWindow, WithStep, WithoutDelivered;
  }

  /** The handlers that work at a mission. */
  lemma StopFrame(db: Db, dir: Directory, user: Id, courier: Id, route: Route, m: Id, o: Id, rq: Request, now: Instant)
    requires m in db.missions && o in db.orders && rq.route in db.routes && route == db.routes[rq.route]
    ensures Framed(db, OnArrival(db, route, m, o, now).db, rq.route)
    ensures Framed(db, OnDelivered(db, dir, user, courier, route, m, o, rq.comment, now).db, rq.route)
    ensures Framed(db, OnUndelivered(db, route, m, o, rq, now).db, rq.route)
    ensures Framed(db, OnStartRoute(db, rq.route, route, m, now).db, rq.route)
    ensures Framed(db, OnStartNext(db, rq.route, route, m, now).db, rq.route)
    ensures Framed(db, OnReturn(db, route, m, now).db, rq.route)
  {
    hide *;
    ArrivalFrame(db, route, rq.route, m, o, now);
    DeliveredFrame(db, dir, user, courier, route, rq.route, m, o, rq.comment, now);
    UndeliveredFrame(db, route, rq.route, m, o, rq, now);
    StartFrame(db, rq.route, route, m, now);
    NextFrame(db, rq.route, m, o, now);
    ReturnFrame(db, rq.route, route, m, o, now);
  }

  lemma ProcessFrame(db: Db, dir: Directory, user: Id, courier: Id, rq: Request, now: Instant)
    requires RouteAssigned(db, rq.route, courier) && (NeedsOrder(rq.step) ==> MissionGiven(db, rq))
    ensures Framed(db, Process(db, dir, user, courier, rq, now).db, rq.route)
  {
    hide Framed, RouteReadable, MissionReadable, OnArrival, OnDelivered, OnUndelivered, OnStartRoute, OnStartNext,
      OnReturn, OnFinish;
    if NeedsOrder(rq.step) {
      var m := MissionOn(db.missions, rq.order.value, rq.route).id;
      StopFrame(db, dir, user, courier, db.routes[rq.route], m, rq.order.value, rq, now);
    } else {
      FinishFrame(db, rq.route, db.routes[rq.route], courier, now);
    }
    SameFrame(db, rq.route);
  }

  lemma SameFrame(db: Db, rid: Id)
    ensures Framed(db, db, rid)
  {
  }

  lemma ConcludeFrame(db: Db, p: Progress, rid: Id, courier: Id, step: CourierStep)
    requires rid in db.routes && Framed(db, p.db, rid) && SameRoute(db.routes[rid], p.route)
    ensures Framed(db, Conclude(p, rid, courier, step).db, rid)
  {
    hide SamePlan, SameOrder, RouteReadable;
  }

  /** The route entity a handler returns differs from the stored row in its progress only. */
  lemma RouteEntityFrame(db: Db, dir: Directory, user: Id, courier: Id, rq: Request, now: Instant)
    requires RouteAssigned(db, rq.route, courier) && (NeedsOrder(rq.step) ==> MissionGiven(db, rq))
    ensures var p := Process(db, dir, user, courier, rq, now);
      && SameRoute(db.routes[rq.route], p.route)
      && p.route.status == RouteStatusAfter(db.routes[rq.route].status, rq.step, p.ok)
  {
    hide MissionReadable, RouteReadable, HasWindow;
  }

  /** The route status a request leads to. */
  function RouteStatusAfter(status: RouteStatus, step: CourierStep, ok: bool): RouteStatus {
    match step
    case StartLoading => RouteStatus.Loading
    case StartRoute => RouteStatus.Ongoing
    case ReturnToHub => RouteStatus.ReturnToHub
    case FinishRoute => if ok then RouteStatus.Finished else status
    case _ => status
  }

  lemma CourierRowFrame(db: Db, courier: Id, rq: Request)
    ensures forall db' :: Framed(WithCourier(db, courier, rq), db', rq.route) ==> Framed(db, db', rq.route)
  {
  }

  /** Whatever the request and however it ends. */
  lemma SetStateFrame(db: Db, dir: Directory, user: Id, rq: Request, now: Instant)
    ensures Framed(db, SetState(db, dir, user, rq, now).db, rq.route)
  {
    hide Framed, Process, Conclude, WithCourier, MissionGiven;
    SameFrame(db, rq.route);
    if user in dir.courierOf {
      var courier := dir.courierOf[user];
      var db1 := WithCourier(db, courier, rq);
      SameFrame(db1, rq.route);
      CourierRowFrame(db, courier, rq);
      if RouteAssigned(db1, rq.route, courier) && (NeedsOrder(rq.step) ==> MissionGiven(db1, rq)) {
        ProcessFrame(db1, dir, user, courier, rq, now);
        RouteEntityFrame(db1, dir, user, courier, rq, now);
        ConcludeFrame(db1, Process(db1, dir, user, courier, rq, now), rq.route, courier, rq.step);
      }
    }
  }

  // ---------------------------------------------------------------- between the commits of a request

  /** Each of these tables is as before the request or as after it. */
  ghost predicate Mixed(db: Db, end: Db, mid: Db) {
    && (mid.routes == db.routes || mid.routes == end.routes)
    && (mid.missions == db.missions || mid.missions == end.missions)
    && (mid.orders == db.orders || mid.orders == end.orders)
    && (mid.usage == db.usage || mid.usage == end.usage)
  }

  ghost predicate AllMixed(db: Db, end: Db, commits: seq<Db>) {
    forall mid <- commits :: Mixed(db, end, mid)
  }

  /** The handlers that end a stop. */
  lemma EndingCommitsMix(db: Db, dir: Directory, user: Id, courier: Id, route: Route, m: Id, o: Id, rq: Request,
                         now: Instant)
    requires m in db.missions && o in db.orders
    ensures AllMixed(db, OnArrival(db, route, m, o, now).db, ArrivalCommits(db, route, m, o, now))
    ensures AllMixed(db, OnDelivered(db, dir, user, courier, route, m, o, rq.comment, now).db,
                     DeliveryCommits(db, dir, user, courier, route, m, o, rq.comment, now))
    ensures AllMixed(db, OnUndelivered(db, route, m, o, rq, now).db, FailureCommits(db, route, m, o, rq, now))
  {
    hide MissionReadable, HasWindow, Incremented, Restatus;
  }

  /** The handlers that leave a stop or the route. */
  lemma LeavingCommitsMix(db: Db, rid: Id, route: Route, courier: Id, m: Id, now: Instant)
    requires rid in db.routes
    ensures m in db.missions ==>
              AllMixed(db, OnStartNext(db, rid, route, m, now).db, LeavingCommits(db, rid, route, m, now))
    ensures AllMixed(db, OnFinish(db, rid, route, courier, now).db, FinishCommits(db, rid, route, courier, now))
  {
    hide MissionReadable, RouteReadable, NextByPosition, TotalWaiting, OverwriteRoute;
  }

  lemma HandlerCommitsMix(db: Db, dir: Directory, user: Id, courier: Id, rq: Request, now: Instant)
    requires RouteAssigned(db, rq.route, courier) && (NeedsOrder(rq.step) ==> MissionGiven(db, rq))
    ensures AllMixed(db, Process(db, dir, user, courier, rq, now).db, HandlerCommits(db, dir, user, courier, rq, now))
  {
    hide RouteReadable, MissionReadable, OnArrival, OnDelivered, OnUndelivered, OnStartNext, OnFinish, ArrivalCommits,
      DeliveryCommits, FailureCommits, LeavingCommits, FinishCommits;
    var route := db.routes[rq.route];
    if NeedsOrder(rq.step) {
      var m := MissionOn(db.missions, rq.order.value, rq.route).id;
      EndingCommitsMix(db, dir, user, courier, route, m, rq.order.value, rq, now);
      LeavingCommitsMix(db, rq.route, route, courier, m, now);
    } else {
      LeavingCommitsMix(db, rq.route, route, courier, 0, now);
    }
  }

  /** The write-back of the route only repeats what the handler has written to it. */
  lemma ConcludeMixes(db: Db, dir: Directory, user: Id, courier: Id, rq: Request, now: Instant)
    requires RouteAssigned(db, rq.route, courier) && (NeedsOrder(rq.step) ==> MissionGiven(db, rq))
    ensures var p := Process(db, dir, user, courier, rq, now);
            var end := Conclude(p, rq.route, courier, rq.step).db;
      && end.missions == p.db.missions && end.orders == p.db.orders && end.usage == p.db.usage
      && (p.db.routes == db.routes || p.db.routes == end.routes)
      && forall mid <- ConcludeCommits(p, rq.route, courier, rq.step) :: Mixed(db, end, mid)
  {
    hide Process, MissionGiven, RouteReadable;
    HandlerRoutes(db, dir, user, courier, rq, now);
    ProcessKeepsRoute(db, dir, user, courier, rq, now);
    var p := Process(db, dir, user, courier, rq, now);
    assert OverwriteRoute(OverwriteRoute(db.routes[rq.route], p.route), p.route)
        == OverwriteRoute(db.routes[rq.route], p.route);
  }

  /** A handler leaves the routes alone or writes the entity it returns. */
  lemma HandlerRoutes(db: Db, dir: Directory, user: Id, courier: Id, rq: Request, now: Instant)
    requires RouteAssigned(db, rq.route, courier) && (NeedsOrder(rq.step) ==> MissionGiven(db, rq))
    ensures var p := Process(db, dir, user, courier, rq, now);
      p.db.routes == db.routes || p.db.routes == db.routes[rq.route := OverwriteRoute(db.routes[rq.route], p.route)]
  {
    hide MissionReadable, HasWindow, NextByPosition, TotalWaiting, Incremented, OverwriteRoute;
  }

  /** What the handler commits lies between the tables before the request and after its conclusion. */
  lemma StageMixes(db: Db, p: Db, end: Db, mid: Db)
    requires end.missions == p.missions && end.orders == p.orders && end.usage == p.usage
    requires p.routes == db.routes || p.routes == end.routes
    requires Mixed(db, p, mid)
    ensures Mixed(db, end, mid)
  {
  }

  /** The courier's new row is in none of these tables. */
  lemma SeenMixes(db: Db, courier: Id, rq: Request, end: Db)
    ensures Mixed(db, end, db) && Mixed(db, end, WithCourier(db, courier, rq))
    ensures forall mid :: Mixed(WithCourier(db, courier, rq), end, mid) ==> Mixed(db, end, mid)
  {
  }

  /** An interrupted request leaves every table but the courier's row as it was or as the whole request leaves it. */
  lemma CommitsMix(db: Db, dir: Directory, user: Id, rq: Request, now: Instant, mid: Db)
    requires DuringCourier(db, dir, user, rq, now, mid)
    ensures Mixed(db, SetState(db, dir, user, rq, now).db, mid)
  {
    hide HandlerCommits, ConcludeCommits, Process, Conclude, MissionGiven, RouteReadable, Mixed, WithCourier;
    var end := SetState(db, dir, user, rq, now).db;
    SeenMixes(db, 0, rq, end);
    if user in dir.courierOf {
      var courier := dir.courierOf[user];
      var db1 := WithCourier(db, courier, rq);
      SeenMixes(db, courier, rq, end);
      if RouteAssigned(db1, rq.route, courier) && (NeedsOrder(rq.step) ==> MissionGiven(db1, rq)) {
        var p := Process(db1, dir, user, courier, rq, now);
        HandlerCommitsMix(db1, dir, user, courier, rq, now);
        ConcludeMixes(db1, dir, user, courier, rq, now);
        if mid in HandlerCommits(db1, dir, user, courier, rq, now) {
          StageMixes(db1, p.db, end, mid);
        }
      }
    }
  }

  lemma FailureIsAStage(db: Db, dir: Directory, user: Id, courier: Id, rq: Request, now: Instant)
    requires RouteAssigned(db, rq.route, courier) && (NeedsOrder(rq.step) ==> MissionGiven(db, rq))
    ensures var p := Process(db, dir, user, courier, rq, now);
      p.ok || p.db == db || p.db in HandlerCommits(db, dir, user, courier, rq, now)
  {
    hide RouteReadable, MissionReadable, HasWindow, NextByPosition, TotalWaiting, OverwriteRoute, Incremented;
  }

  /** The whole request ends in one of its own stages. */
  lemma WholeRequestIsAStage(db: Db, dir: Directory, user: Id, rq: Request, now: Instant)
    ensures DuringCourier(db, dir, user, rq, now, SetState(db, dir, user, rq, now).db)
  {
    hide Process, HandlerCommits, MissionGiven, RouteReadable;
    if user in dir.courierOf {
      var courier := dir.courierOf[user];
      var db1 := WithCourier(db, courier, rq);
      if RouteAssigned(db1, rq.route, courier) && (NeedsOrder(rq.step) ==> MissionGiven(db1, rq)) {
        FailureIsAStage(db1, dir, user, courier, rq, now);
        ProcessKeepsRoute(db1, dir, user, courier, rq, now);
      }
    }
  }

  lemma MixedFrame(db: Db, end: Db, mid: Db, rid: Id)
    requires Framed(db, end, rid) && Mixed(db, end, mid)
    ensures Framed(db, mid, rid)
  {
    hide HasWindow;
  }

  lemma DuringCourierFrame(db: Db, dir: Directory, user: Id, rq: Request, now: Instant, mid: Db)
    requires DuringCourier(db, dir, user, rq, now, mid)
    ensures Framed(db, mid, rq.route)
  {
    hide SetState, Framed, Mixed, DuringCourier;
    SetStateFrame(db, dir, user, rq, now);
    CommitsMix(db, dir, user, rq, now, mid);
    MixedFrame(db, SetState(db, dir, user, rq, now).db, mid, rq.route);
  }
}
