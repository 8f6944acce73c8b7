/** What a courier request does, column by column: who may ask, what each step writes, and when it fails. */
module RequestColumns {
  import opened Base
  import opened Domain
  import opened Tables
  import opened Store
  import opened CourierSpec

  // ---------------------------------------------------------------- who may ask

  /** The caller is a courier, and the route can be read and is theirs. */
  predicate MayDrive(db: Db, dir: Directory, user: Id, rq: Request) {
    && user in dir.courierOf
    && rq.route in db.routes && RouteReadable(db.routes[rq.route])
    && db.routes[rq.route].courierId == dir.courierOf[user]
  }

  /** The request names an order, and `m` is its one mission on the route and can be read. */
  ghost predicate WorksOn(db: Db, rq: Request, m: Id) {
    && rq.order.Some? && rq.order.value in db.orders
    && m in db.missions && MissionReadable(db.missions[m])
    && forall x <- db.missions ::
         db.missions[x].routeId == rq.route && db.missions[x].orderId == rq.order.value <==> x == m
  }

  /** The six steps that concern a mission. */
  predicate AtAMission(step: CourierStep) {
    || step.StartRoute? || step.ArrivedAtDelivery? || step.Delivered? || step.Undelivered?
    || step.StartNextDelivery? || step.ReturnToHub?
  }

  ghost predicate Passes(db: Db, dir: Directory, user: Id, rq: Request) {
    MayDrive(db, dir, user, rq) && (AtAMission(rq.step) ==> exists m :: WorksOn(db, rq, m))
  }

  lemma MissionIsFound(db: Db, rq: Request, m: Id)
    requires WorksOn(db, rq, m)
    ensures MissionOn(db.missions, rq.order.value, rq.route) == One(m) && MissionGiven(db, rq)
  {
    assert RowsOn(db.missions, rq.order.value, rq.route) == {m};
    SoleIs({m}, m);
  }

  lemma FoundMissionIsTheOne(db: Db, rq: Request) returns (m: Id)
    requires MissionGiven(db, rq)
    ensures WorksOn(db, rq, m)
  {
    m := MissionOn(db.missions, rq.order.value, rq.route).id;
    SoleIs(RowsOn(db.missions, rq.order.value, rq.route), m);
    forall x | x in db.missions
      ensures db.missions[x].routeId == rq.route && db.missions[x].orderId == rq.order.value <==> x == m
    {
      assert x in RowsOn(db.missions, rq.order.value, rq.route) <==> x == m;
    }
  }

  /** Everything but the couriers' rows is as it was. */
  predicate SameTables(db: Db, db': Db) {
    db'.routes == db.routes && db'.missions == db.missions && db'.orders == db.orders && db'.usage == db.usage
  }

  /** The row a courier's request finds or creates, with the request's own order and step. */
  function RowFound(db: Db, courier: Id, rq: Request): CourierState {
    if courier in db.couriers then db.couriers[courier]
    else CourierState(if rq.order.Some? then [rq.order.value] else [], rq.step)
  }

  /**
   A request that may not be made fails before anything is written but the first row of its courier; a caller
   who is no courier does not even get that.
   */
  lemma RefusalWritesNothing(db: Db, dir: Directory, user: Id, rq: Request, now: Instant)
    requires !Passes(db, dir, user, rq)
    ensures var r := SetState(db, dir, user, rq, now);
      && r.Raised? && SameTables(db, r.db)
      && r.db.couriers == if user in dir.courierOf
                          then db.couriers[dir.courierOf[user] := RowFound(db, dir.courierOf[user], rq)]
                          else db.couriers
  {
    hide Process, Conclude, MissionReadable, RouteReadable;
    if MissionGiven(db, rq) {
      var m := FoundMissionIsTheOne(db, rq);
    }
  }

  /** The courier ends with this list and the step of the request; no other courier's row changes. */
  ghost predicate CourierIs(db: Db, db': Db, courier: Id, rq: Request, list: seq<Id>) {
    db'.couriers == db.couriers[courier := CourierState(list, rq.step)]
  }

  /** Only the row of `m` differs. */
  ghost predicate OnlyMission(db: Db, db': Db, m: Id) {
    m in db.missions && m in db'.missions && db'.missions == db.missions[m := db'.missions[m]]
  }

  /** Only the row of `rid` differs. */
  ghost predicate OnlyRoute(db: Db, db': Db, rid: Id) {
    rid in db.routes && rid in db'.routes && db'.routes == db.routes[rid := db'.routes[rid]]
  }

  lemma PassesToHandler(db: Db, dir: Directory, user: Id, rq: Request, now: Instant, m: Id)
    requires MayDrive(db, dir, user, rq) && (AtAMission(rq.step) ==> WorksOn(db, rq, m))
    ensures var courier := dir.courierOf[user]; var db1 := WithCourier(db, courier, rq);
      && RouteAssigned(db1, rq.route, courier) && (NeedsOrder(rq.step) ==> MissionGiven(db1, rq))
      && SetState(db, dir, user, rq, now)
         == Conclude(Process(db1, dir, user, courier, rq, now), rq.route, courier, rq.step)
      && SameTables(db, db1) && db1.couriers == db.couriers[courier := RowFound(db, courier, rq)]
    ensures AtAMission(rq.step) ==> MissionOn(db.missions, rq.order.value, rq.route) == One(m)
    ensures NeedsOrder(rq.step) <==> AtAMission(rq.step)
  {
    hide Process, Conclude, MissionReadable, RouteReadable;
    if AtAMission(rq.step) {
      MissionIsFound(db, rq, m);
    }
    var courier := dir.courierOf[user];
    assert courier in db.couriers ==> db.couriers[courier := db.couriers[courier]] == db.couriers;
  }

  // ---------------------------------------------------------------- at the hub

  /** ARRIVEDATHUB and STARTLOADING always succeed for a courier on their own route. */
  lemma HubColumns(db: Db, dir: Directory, user: Id, rq: Request, now: Instant)
    requires MayDrive(db, dir, user, rq) && (rq.step.ArrivedAtHub? || rq.step.StartLoading?)
    ensures var r := SetState(db, dir, user, rq, now); var courier := dir.courierOf[user];
      && r.Done? && OnlyRoute(db, r.db, rq.route)
      && r.db.routes[rq.route]
         == (if rq.step.ArrivedAtHub? then db.routes[rq.route].(arrivedAtHub := Some(now))
             else db.routes[rq.route].(status := RouteStatus.Loading, loadingStart := Some(now)))
      && r.db.missions == db.missions && r.db.orders == db.orders && r.db.usage == db.usage
      && CourierIs(db, r.db, courier, rq, RowFound(db, courier, rq).delivered)
  {
    hide MissionReadable, SetState, WithCourier;
    PassesToHandler(db, dir, user, rq, now, 0);
  }

  /** IDLE only writes the courier's state. */
  lemma IdleColumns(db: Db, dir: Directory, user: Id, rq: Request, now: Instant)
    requires MayDrive(db, dir, user, rq) && rq.step.Idle?
    ensures var r := SetState(db, dir, user, rq, now); var courier := dir.courierOf[user];
      && r.Done? && SameTables(db, r.db)
      && CourierIs(db, r.db, courier, rq, RowFound(db, courier, rq).delivered)
  {
    hide MissionReadable, SetState, WithCourier;
    PassesToHandler(db, dir, user, rq, now, 0);
  }

  /** STARTROUTE: the route and all its missions are under way, and the mission of the order is the current one. */
  lemma StartColumns(db: Db, dir: Directory, user: Id, rq: Request, now: Instant, m: Id)
    requires rq.step.StartRoute? && MayDrive(db, dir, user, rq) && WorksOn(db, rq, m)
    ensures var r := SetState(db, dir, user, rq, now); var courier, route := dir.courierOf[user], db.routes[rq.route];
      && (r.Done? <==> (route.actualFinish.Some? ==> TimeOf(now) < route.actualFinish.value))
      && OnlyRoute(db, r.db, rq.route)
      && r.db.routes[rq.route]
         == route.(status := RouteStatus.Ongoing, actualStart := Some(TimeOf(now)), currentMission := Some(m))
      && r.db.missions.Keys == db.missions.Keys
      && (forall x <- db.missions ::
            r.db.missions[x] == if db.missions[x].routeId == rq.route
                                then db.missions[x].(status := Some(Known(MissionStatus.Ongoing)))
                                else db.missions[x])
      && r.db.orders == db.orders && r.db.usage == db.usage
      && (r.Done? ==> CourierIs(db, r.db, courier, rq, RowFound(db, courier, rq).delivered))
  {
    hide MissionReadable, SetState, WithCourier, MissionOn;
    PassesToHandler(db, dir, user, rq, now, m);
  }

  // ---------------------------------------------------------------- at a stop

  /** Whole minutes of `early`, none when it is not positive. */
  predicate WaitFor(wait: Option<int>, early: int) {
    && wait.Some?
    && if early > 0 then wait.value * MINUTE <= early < (wait.value + 1) * MINUTE else wait.value == 0
  }

  /** ARRIVEDATDELIVERY succeeds exactly for an order with a delivery window. */
  lemma ArrivalColumns(db: Db, dir: Directory, user: Id, rq: Request, now: Instant, m: Id)
    requires rq.step.ArrivedAtDelivery? && MayDrive(db, dir, user, rq) && WorksOn(db, rq, m)
    ensures var r := SetState(db, dir, user, rq, now);
            var courier, o := dir.courierOf[user], db.orders[rq.order.value];
      && (r.Done? <==> o.earliest.Some? && o.latest.Some? && o.earliest.value < o.latest.value)
      && r.db.routes == db.routes && r.db.orders == db.orders && r.db.usage == db.usage
      && (r.Raised? ==> r.db.missions == db.missions)
      && (r.Done? ==>
            && OnlyMission(db, r.db, m)
            && r.db.missions[m] == db.missions[m].(actualArrival := Some(TimeOf(now)),
                                                   actualWaiting := r.db.missions[m].actualWaiting)
            && WaitFor(r.db.missions[m].actualWaiting, o.earliest.value - TimeOf(now))
            && CourierIs(db, r.db, courier, rq, RowFound(db, courier, rq).delivered))
  {
    hide SetState, WithCourier, MissionOn;
    PassesToHandler(db, dir, user, rq, now, m);
    assert db.routes[rq.route := db.routes[rq.route]] == db.routes;
  }

  /** The one usage row of a user's customer counts one more; without one nothing is counted. */
  ghost predicate CountsDelivery(usage: map<Id, Usage>, usage': map<Id, Usage>, dir: Directory, user: Id) {
    && usage'.Keys == usage.Keys
    && forall u <- usage ::
         if user in dir.customerOf && (forall x <- usage :: usage[x].customer == dir.customerOf[user] <==> x == u) then
           var count, limit := usage[u].count + 1, usage[u].limit;
           usage'[u] == usage[u].(count := count, overage := if count > limit then count - limit else usage[u].overage)
         else usage'[u] == usage[u]
  }

  lemma IncrementCounts(usage: map<Id, Usage>, dir: Directory, user: Id)
    ensures CountsDelivery(usage, if user in dir.customerOf then Incremented(usage, dir.customerOf[user]) else usage,
                           dir, user)
  {
    if user in dir.customerOf {
      var customer := dir.customerOf[user];
      var rows := UsageRowsOf(usage, customer);
      forall u | u in usage
        ensures (forall x <- usage :: usage[x].customer == customer <==> x == u) <==> Sole(rows) == One(u)
      {
        SoleIs(rows, u);
        assert forall x <- usage :: x in rows <==> usage[x].customer == customer;
        if forall x <- usage :: usage[x].customer == customer <==> x == u {
          assert rows == {u};
        }
        if rows == {u} {
          assert forall x <- usage :: x in rows <==> x == u;
        }
      }
    }
  }

  /** DELIVERED: late exactly after the end of the window; mission, order, list and usage count follow. */
  lemma DeliveryColumns(db: Db, dir: Directory, user: Id, rq: Request, now: Instant, m: Id)
    requires rq.step.Delivered? && MayDrive(db, dir, user, rq) && WorksOn(db, rq, m)
    ensures var r := SetState(db, dir, user, rq, now);
            var courier, o, row := dir.courierOf[user], rq.order.value, db.missions[m];
            var order, list := db.orders[o], RowFound(db, courier, rq).delivered;
      && (r.Done? <==> order.earliest.Some? && order.latest.Some? && order.earliest.value < order.latest.value)
      && r.db.routes == db.routes
      && (r.Raised? ==> r.db.missions == db.missions && r.db.orders == db.orders && r.db.usage == db.usage)
      && (r.Done? ==>
            && OnlyMission(db, r.db, m)
            && r.db.missions[m]
               == row.(status := Some(Known(if TimeOf(now) > order.latest.value then MissionStatus.DeliveredWithDelay
                                            else MissionStatus.Delivered)),
                       deliveryScan := Some(now),
                       comment := if rq.comment.Some? then rq.comment else row.comment)
            && r.db.orders == db.orders[o := order.(status := OrderStatus.Delivered, actualDelivery := Some(now))]
            && CountsDelivery(db.usage, r.db.usage, dir, user)
            && CourierIs(db, r.db, courier, rq, if o in list then list else list + [o]))
  {
    hide SetState, WithCourier, MissionOn, Incremented, CountsDelivery;
    PassesToHandler(db, dir, user, rq, now, m);
    IncrementCounts(db.usage, dir, user);
    assert db.routes[rq.route := db.routes[rq.route]] == db.routes;
  }

  /** UNDELIVERED needs a reason; the order is POSTPONED and loses a window that is not in order. */
  lemma FailureColumns(db: Db, dir: Directory, user: Id, rq: Request, now: Instant, m: Id)
    requires rq.step.Undelivered? && MayDrive(db, dir, user, rq) && WorksOn(db, rq, m)
    ensures var r := SetState(db, dir, user, rq, now);
            var courier, o, row := dir.courierOf[user], rq.order.value, db.missions[m];
            var order := db.orders[o];
      && (r.Done? <==> rq.undeliver.Some?)
      && r.db.routes == db.routes && r.db.usage == db.usage
      && (r.Raised? ==> r.db.missions == db.missions && r.db.orders == db.orders)
      && (r.Done? ==>
            && OnlyMission(db, r.db, m)
            && r.db.missions[m]
               == row.(status := Some(Reason(rq.undeliver.value)), deliveryScan := Some(now),
                       comment := if rq.comment.Some? then rq.comment else row.comment,
                       postponed := Some(Reported(rq.undeliver.value)))
            && r.db.orders.Keys == db.orders.Keys
            && (forall x <- db.orders :: x != o ==> r.db.orders[x] == db.orders[x])
            && RestatedTo(order, r.db.orders[o], OrderStatus.Postponed)
            && CourierIs(db, r.db, courier, rq, RowFound(db, courier, rq).delivered))
  {
    hide SetState, WithCourier, MissionOn, Restatus;
    PassesToHandler(db, dir, user, rq, now, m);
    RestatusColumns(db.orders[rq.order.value], OrderStatus.Postponed);
    assert db.routes[rq.route := db.routes[rq.route]] == db.routes;
  }

  // ---------------------------------------------------------------- leaving

  /** `n` is the one mission of the route at this position. */
  ghost predicate OnlyAt(missions: map<Id, Mission>, route: Id, position: int, n: Id) {
    && n in missions
    && forall x <- missions :: missions[x].routeId == route && missions[x].position == Some(position) <==> x == n
  }

  lemma NextIs(missions: map<Id, Mission>, route: Id, position: int)
    ensures forall n: Id ::
              NextByPosition(missions, route, position) == One(n) <==> OnlyAt(missions, route, position, n)
    ensures NextByPosition(missions, route, position).Missing?
       <==> forall x <- missions :: missions[x].routeId == route ==> missions[x].position != Some(position)
  {
    var rows := AtPosition(missions, route, position);
    forall n: Id ensures NextByPosition(missions, route, position) == One(n) <==> OnlyAt(missions, route, position, n) {
      SoleIs(rows, n);
      if OnlyAt(missions, route, position, n) {
        assert rows == {n};
      }
      if rows == {n} {
        assert n in rows;
        assert forall x <- missions :: x in rows <==> x == n;
      }
    }
    if forall x <- missions :: missions[x].routeId == route ==> missions[x].position != Some(position) {
      assert rows == {};
    }
    if rows == {} {
      assert forall x <- missions :: x !in rows;
    }
  }

  lemma NextHandler(db: Db, dir: Directory, user: Id, courier: Id, rq: Request, now: Instant, m: Id)
    requires rq.step.StartNextDelivery? && RouteAssigned(db, rq.route, courier) && MissionGiven(db, rq)
    requires MissionOn(db.missions, rq.order.value, rq.route) == One(m) && m in db.missions
    ensures var p, route := Process(db, dir, user, courier, rq, now), db.routes[rq.route];
            var missions := db.missions[m := Completed(db.missions[m], TimeOf(now))];
            var next := NextByPosition(missions, rq.route, PositionAfter(Completed(db.missions[m], TimeOf(now))));
      && p.db == db.(missions := missions, routes := p.db.routes)
      && (p.db.routes == db.routes || p.db.routes == db.routes[rq.route := p.route])
      && (p.ok ==> !next.Many? && p.route == if next.One? then route.(currentMission := Some(next.id)) else route)
  {
    hide MissionOn, NextByPosition, Completed, MissionReadable, RouteReadable;
  }

  /**
   STARTNEXTDELIVERY: whether or not it succeeds, the mission finishes now. When it succeeds, the one mission at
   the following position becomes the route's current one, or nothing does if that position is free.
   */
  lemma NextColumns(db: Db, dir: Directory, user: Id, rq: Request, now: Instant, m: Id)
    requires rq.step.StartNextDelivery? && MayDrive(db, dir, user, rq) && WorksOn(db, rq, m)
    ensures var r := SetState(db, dir, user, rq, now);
            var courier, route, row := dir.courierOf[user], db.routes[rq.route], db.missions[m];
            var position := if row.position.Some? then row.position.value + 1 else 1;
      && OnlyMission(db, r.db, m) && FinishedAt(row, r.db.missions[m], TimeOf(now))
      && r.db.orders == db.orders && r.db.usage == db.usage
      && (r.Done? ==>
            && (forall n: Id :: OnlyAt(r.db.missions, rq.route, position, n) ==>
                  r.db.routes == db.routes[rq.route := route.(currentMission := Some(n))])
            && ((forall x <- db.missions :: db.missions[x].routeId == rq.route ==>
                                              db.missions[x].position != Some(position)) ==> r.db.routes == db.routes)
            && CourierIs(db, r.db, courier, rq, RowFound(db, courier, rq).delivered))
  {
    hide SetState, WithCourier, MissionOn, NextByPosition, Completed, FinishedAt, MissionReadable, OnlyAt, Process;
    PassesToHandler(db, dir, user, rq, now, m);
    NextHandler(WithCourier(db, dir.courierOf[user], rq), dir, user, dir.courierOf[user], rq, now, m);
    CompletedColumns(db.missions[m], TimeOf(now));
    CompletedKeepsPlace(db.missions[m], TimeOf(now));
    NextIs(db.missions[m := Completed(db.missions[m], TimeOf(now))], rq.route, PositionAfter(db.missions[m]));
    assert db.routes[rq.route := db.routes[rq.route]] == db.routes;
  }

  lemma CompletedKeepsPlace(m: Mission, t: Time)
    ensures Completed(m, t).routeId == m.routeId && Completed(m, t).position == m.position
  {
  }

  /** RETURNTOHUB: whether or not it succeeds, the mission finishes now; the route is on its way back if it does. */
  lemma ReturnColumns(db: Db, dir: Directory, user: Id, rq: Request, now: Instant, m: Id)
    requires rq.step.ReturnToHub? && MayDrive(db, dir, user, rq) && WorksOn(db, rq, m)
    ensures var r := SetState(db, dir, user, rq, now);
            var courier, route := dir.courierOf[user], db.routes[rq.route];
      && OnlyMission(db, r.db, m) && FinishedAt(db.missions[m], r.db.missions[m], TimeOf(now))
      && r.db.orders == db.orders && r.db.usage == db.usage
      && r.db.routes == (if r.Done? then db.routes[rq.route := route.(status := RouteStatus.ReturnToHub)]
                         else db.routes)
      && (r.Done? ==> CourierIs(db, r.db, courier, rq, RowFound(db, courier, rq).delivered))
  {
    hide SetState, WithCourier, MissionOn, Completed, FinishedAt, MissionReadable;
    PassesToHandler(db, dir, user, rq, now, m);
    CompletedColumns(db.missions[m], TimeOf(now));
  }

  /** The route's current mission can be read and has no finish time. */
  predicate Open(db: Db, route: Route, m: Id) {
    && route.currentMission == Some(m) && m in db.missions
    && MissionReadable(db.missions[m]) && db.missions[m].actualFinish.None?
  }

  /**
   FINISHROUTE: an open current mission finishes now, whether or not the request succeeds, and no other mission
   changes. If it succeeds, the route is finished now, with the sum of its missions' waits, and the courier's
   list is empty.
   */
  lemma FinishColumns(db: Db, dir: Directory, user: Id, rq: Request, now: Instant)
    requires rq.step.FinishRoute? && MayDrive(db, dir, user, rq)
    ensures var r := SetState(db, dir, user, rq, now);
            var courier, route := dir.courierOf[user], db.routes[rq.route];
      && (forall m: Id :: Open(db, route, m) ==>
            OnlyMission(db, r.db, m) && FinishedAt(db.missions[m], r.db.missions[m], TimeOf(now)))
      && ((forall m: Id :: !Open(db, route, m)) ==> r.db.missions == db.missions)
      && r.db.orders == db.orders && r.db.usage == db.usage
      && (r.Done? ==>
            && OnlyRoute(db, r.db, rq.route)
            && r.db.routes[rq.route]
               == route.(status := RouteStatus.Finished, actualFinish := Some(TimeOf(now)),
                         totalActualWaiting := Some(TotalWaiting(r.db.missions, rq.route)))
            && CourierIs(db, r.db, courier, rq, []))
  {
    hide SetState, WithCourier, MissionOn, Completed, FinishedAt, MissionReadable, TotalWaiting;
    PassesToHandler(db, dir, user, rq, now, 0);
    var route := db.routes[rq.route];
    if Unfinished(db, route.currentMission) {
      CompletedColumns(db.missions[route.currentMission.value], TimeOf(now));
      assert Open(db, route, route.currentMission.value);
    }
  }

  // ---------------------------------------------------------------- the total of the waits

  /** The waits of the listed missions added up, an absent one counting nothing. */
  function AddedUp(missions: map<Id, Mission>, rows: seq<Id>): int
    requires forall m <- rows :: m in missions
  {
    if rows == [] then 0
    else
      var wait := missions[rows[0]].actualWaiting;
      (if wait.Some? then wait.value else 0) + AddedUp(missions, rows[1..])
  }

  function Listed(rows: seq<Id>): set<Id> {
    set m | m in rows
  }

  lemma {:induction false} SumIsAddedUp(missions: map<Id, Mission>, rows: seq<Id>)
    requires NoRepeats(rows) && forall m <- rows :: m in missions
    ensures Listed(rows) <= missions.Keys && SumWaits(missions, Listed(rows)) == AddedUp(missions, rows)
  {
    if rows == [] {
    } else {
      assert NoRepeats(rows[1..]);
      SumIsAddedUp(missions, rows[1..]);
      assert rows == [rows[0]] + rows[1..];
      assert Listed(rows) - {rows[0]} == Listed(rows[1..]);
      SumWaitsTake(missions, Listed(rows), rows[0]);
    }
  }

  /** The total of a route is the sum of its missions' waits, however they are listed. */
  lemma TotalIsAddedUp(missions: map<Id, Mission>, route: Id, rows: seq<Id>)
    requires NoRepeats(rows)
    requires forall m: Id :: m in rows <==> m in missions && missions[m].routeId == route
    ensures TotalWaiting(missions, route) == AddedUp(missions, rows)
  {
    SumIsAddedUp(missions, rows);
    assert MissionsOf(missions, route) == Listed(rows);
  }
}
