/** What one courier request does to the tables, as a function of the tables before it. */
module CourierSpec {
  import opened Base
  import opened Domain
  import opened Tables
  import opened Store

  datatype Request = Request(
    step: CourierStep,
    route: Id,
    order: Option<Id>,
    comment: Option<string>,
    undeliver: Option<UndeliverType>
  )

  /** How a request ends; what was committed before an exception stays. */
  datatype Result = Done(db: Db) | Raised(db: Db)

  /** Where a handler leaves the tables and its route entity, and whether it returned. */
  datatype Progress = Progress(db: Db, route: Route, ok: bool)

  predicate NeedsOrder(step: CourierStep) {
    step in {CourierStep.StartRoute, CourierStep.ArrivedAtDelivery, CourierStep.Delivered, CourierStep.Undelivered,
             CourierStep.StartNextDelivery, CourierStep.ReturnToHub}
  }

  /** Whole minutes from `t` to the opening of the window. */
  function Earliness(t: Time, earliest: Time): int {
    if t < earliest then Whole(earliest - t, MINUTE) else 0
  }

  function Completed(m: Mission, t: Time): Mission {
    m.(actualFinish := Some(t),
       actualServiceTime := if m.actualArrival.Some? then Some(Whole(t - m.actualArrival.value, SECOND))
                            else m.actualServiceTime)
  }

  /** Whole seconds of `stay`, rounded toward zero. */
  predicate WholeSeconds(service: Option<int>, stay: int) {
    && service.Some?
    && if stay >= 0 then service.value * SECOND <= stay < (service.value + 1) * SECOND
       else (service.value - 1) * SECOND < stay <= service.value * SECOND
  }

  /** The mission finished at `t`; its service lasted from its arrival, if it has one, until then. */
  predicate FinishedAt(was: Mission, m: Mission, t: Time) {
    && m == was.(actualFinish := Some(t), actualServiceTime := m.actualServiceTime)
    && if was.actualArrival.Some? then WholeSeconds(m.actualServiceTime, t - was.actualArrival.value)
       else m.actualServiceTime == was.actualServiceTime
  }

  lemma CompletedColumns(m: Mission, t: Time)
    ensures FinishedAt(m, Completed(m, t), t)
  {
  }

  function Arrived(m: Mission, o: Order, t: Time): Mission
    requires HasWindow(o)
  {
    m.(actualArrival := Some(t), actualWaiting := Some(Earliness(t, o.earliest.value)))
  }

  function DeliveredMission(m: Mission, o: Order, comment: Option<string>, now: Instant): Mission
    requires HasWindow(o)
  {
    var late := TimeOf(now) > o.latest.value;
    m.(status := Some(Known(if late then MissionStatus.DeliveredWithDelay else MissionStatus.Delivered)),
       deliveryScan := Some(now),
       comment := Given(comment, m.comment))
  }

  function UndeliveredMission(m: Mission, reason: UndeliverType, comment: Option<string>, now: Instant): Mission {
    m.(status := Some(Reason(reason)),
       deliveryScan := Some(now),
       comment := Given(comment, m.comment),
       postponed := Some(Reported(reason)))
  }

  function PositionAfter(m: Mission): int {
    (if m.position.Some? then m.position.value else 0) + 1
  }

  // ---------------------------------------------------------------- the handlers

  function OnStartRoute(db: Db, rid: Id, route: Route, m: Id, now: Instant): Progress {
    Progress(db.(missions := WithMissionStatus(db.missions, rid, Known(MissionStatus.Ongoing))),
             route.(status := RouteStatus.Ongoing, actualStart := Some(TimeOf(now)), currentMission := Some(m)),
             true)
  }

  function OnArrival(db: Db, route: Route, m: Id, o: Id, now: Instant): Progress
    requires m in db.missions && o in db.orders
  {
    if !HasWindow(db.orders[o]) then Progress(db, route, false)
    else
      var row := Arrived(db.missions[m], db.orders[o], TimeOf(now));
      Progress(db.(missions := db.missions[m := row]), route, MissionReadable(row))
  }

  function OnDelivered(db: Db, dir: Directory, user: Id, courier: Id, route: Route, m: Id, o: Id,
                   comment: Option<string>, now: Instant): Progress
    requires m in db.missions && o in db.orders
  {
    var order := db.orders[o];
    if !HasWindow(order) then Progress(db, route, false)
    else
      var row := DeliveredMission(db.missions[m], order, comment, now);
      var db1 := db.(missions := db.missions[m := row]);
      if !MissionReadable(row) then Progress(db1, route, false)
      else
        Progress(
          db1.(orders := db.orders[o := order.(status := OrderStatus.Delivered, actualDelivery := Some(now))],
               couriers := WithDelivered(db.couriers, courier, o),
               usage := if user in dir.customerOf then Incremented(db.usage, dir.customerOf[user]) else db.usage),
          route, true)
  }

  function OnUndelivered(db: Db, route: Route, m: Id, o: Id, rq: Request, now: Instant): Progress
    requires m in db.missions && o in db.orders
  {
    if rq.undeliver.None? then Progress(db, route, false)
    else
      var row := UndeliveredMission(db.missions[m], rq.undeliver.value, rq.comment, now);
      var db1 := db.(missions := db.missions[m := row]);
      if !MissionReadable(row) then Progress(db1, route, false)
      else Progress(db1.(orders := db.orders[o := Restatus(db.orders[o], OrderStatus.Postponed)]), route, true)
  }

  function OnStartNext(db: Db, rid: Id, route: Route, m: Id, now: Instant): Progress
    requires m in db.missions && rid in db.routes
  {
    var row := Completed(db.missions[m], TimeOf(now));
    var db1 := db.(missions := db.missions[m := row]);
    if !MissionReadable(row) then Progress(db1, route, false)
    else
      match NextByPosition(db1.missions, rid, PositionAfter(row))
      case Missing => Progress(db1, route, true)
      case Many => Progress(db1, route, false)
      case One(next) =>
        if next !in db1.missions || !MissionReadable(db1.missions[next]) then Progress(db1, route, false)
        else
          var route' := route.(currentMission := Some(next));
          Progress(db1.(routes := db.routes[rid := OverwriteRoute(db.routes[rid], route')]), route',
                   RouteReadable(OverwriteRoute(db.routes[rid], route')))
  }

  function OnReturn(db: Db, route: Route, m: Id, now: Instant): Progress
    requires m in db.missions
  {
    var row := Completed(db.missions[m], TimeOf(now));
    Progress(db.(missions := db.missions[m := row]), route.(status := RouteStatus.ReturnToHub), MissionReadable(row))
  }

  /** The current mission still has to be completed: it can be read and has no finish time. */
  predicate Unfinished(db: Db, current: Option<Id>) {
    && current.Some? && current.value in db.missions
    && MissionReadable(db.missions[current.value]) && db.missions[current.value].actualFinish.None?
  }

  ghost function OnFinish(db: Db, rid: Id, route: Route, courier: Id, now: Instant): Progress {
    var t := TimeOf(now);
    var open := Unfinished(db, route.currentMission);
    var db1 := if open then
                 var m := route.currentMission.value;
                 db.(missions := db.missions[m := Completed(db.missions[m], t)])
               else db;
    if open && !MissionReadable(db1.missions[route.currentMission.value]) then Progress(db1, route, false)
    else
      Progress(db1.(couriers := WithStep(WithoutDelivered(db.couriers, courier), courier, CourierStep.Idle)),
               route.(status := RouteStatus.Finished, actualFinish := Some(t),
                      totalActualWaiting := Some(TotalWaiting(db1.missions, rid))),
               true)
  }

  // ---------------------------------------------------------------- the request

  /** A courier's first request creates its state row; the list then starts with the request's order. */
  function WithCourier(db: Db, courier: Id, rq: Request): Db {
    if courier in db.couriers then db
    else
      var first := CourierState(if rq.order.Some? then [rq.order.value] else [], rq.step);
      db.(couriers := db.couriers[courier := first])
  }

  predicate RouteAssigned(db: Db, rid: Id, courier: Id) {
    rid in db.routes && RouteReadable(db.routes[rid]) && db.routes[rid].courierId == courier
  }

  /** The request names an order that has a readable mission on the route. */
  predicate MissionGiven(db: Db, rq: Request) {
    && rq.order.Some? && rq.order.value in db.orders
    && var m := MissionOn(db.missions, rq.order.value, rq.route);
    m.One? && m.id in db.missions && MissionReadable(db.missions[m.id])
  }

  ghost function Process(db: Db, dir: Directory, user: Id, courier: Id, rq: Request, now: Instant): Progress
    requires RouteAssigned(db, rq.route, courier)
    requires NeedsOrder(rq.step) ==> MissionGiven(db, rq)
  {
    var route := db.routes[rq.route];
    if NeedsOrder(rq.step) then
      var o := rq.order.value;
      var m := MissionOn(db.missions, o, rq.route).id;
      match rq.step
      case StartRoute => OnStartRoute(db, rq.route, route, m, now)
      case ArrivedAtDelivery => OnArrival(db, route, m, o, now)
      case Delivered => OnDelivered(db, dir, user, courier, route, m, o, rq.comment, now)
      case Undelivered => OnUndelivered(db, route, m, o, rq, now)
      case StartNextDelivery => OnStartNext(db, rq.route, route, m, now)
      case ReturnToHub => OnReturn(db, route, m, now)
      case _ => Progress(db, route, false)
    else
      match rq.step
      case ArrivedAtHub => Progress(db, route.(arrivedAtHub := Some(now)), true)
      case StartLoading =>
        Progress(db, route.(status := RouteStatus.Loading, loadingStart := Some(now)), true)
      case FinishRoute => OnFinish(db, rq.route, route, courier, now)
      case _ => Progress(db, route, true)
  }

  lemma ProcessKeepsRoute(db: Db, dir: Directory, user: Id, courier: Id, rq: Request, now: Instant)
    requires RouteAssigned(db, rq.route, courier)
    requires NeedsOrder(rq.step) ==> MissionGiven(db, rq)
    ensures rq.route in Process(db, dir, user, courier, rq, now).db.routes
  {
    hide RouteReadable, MissionReadable, HasWindow, NextByPosition, TotalWaiting, OverwriteRoute;
  }

  /** The write-back of the route, its read-back, and the courier's new state. */
  function Conclude(p: Progress, rid: Id, courier: Id, step: CourierStep): Result {
    if !p.ok || rid !in p.db.routes then Raised(p.db)
    else
      var route := OverwriteRoute(p.db.routes[rid], p.route);
      var db1 := p.db.(routes := p.db.routes[rid := route]);
      if RouteReadable(route) then Done(db1.(couriers := WithStep(db1.couriers, courier, step)))
      else Raised(db1)
  }

  ghost function SetState(db: Db, dir: Directory, user: Id, rq: Request, now: Instant): Result {
    if user !in dir.courierOf then Raised(db)
    else
      var courier := dir.courierOf[user];
      var db1 := WithCourier(db, courier, rq);
      if !RouteAssigned(db1, rq.route, courier) || (NeedsOrder(rq.step) && !MissionGiven(db1, rq)) then Raised(db1)
      else Conclude(Process(db1, dir, user, courier, rq, now), rq.route, courier, rq.step)
  }

  // ---------------------------------------------------------------- the commits of a request

  function ArrivalCommits(db: Db, route: Route, m: Id, o: Id, now: Instant): seq<Db>
    requires m in db.missions && o in db.orders
  {
    if HasWindow(db.orders[o]) then [OnArrival(db, route, m, o, now).db] else []
  }

  /** The mission, the order, and the usage count if there is one to raise; the delivered list stays pending. */
  function DeliveryCommits(db: Db, dir: Directory, user: Id, courier: Id, route: Route, m: Id, o: Id,
                           comment: Option<string>, now: Instant): seq<Db>
    requires m in db.missions && o in db.orders
  {
    var p := OnDelivered(db, dir, user, courier, route, m, o, comment, now);
    var written := db.(missions := p.db.missions);
    if !HasWindow(db.orders[o]) then []
    else if !p.ok then [written]
    else
      [written, written.(orders := p.db.orders)]
      + if user in dir.customerOf && UsageOf(db.usage, dir.customerOf[user]).One? then [p.db] else []
  }

  function FailureCommits(db: Db, route: Route, m: Id, o: Id, rq: Request, now: Instant): seq<Db>
    requires m in db.missions && o in db.orders
  {
    var p := OnUndelivered(db, route, m, o, rq, now);
    if rq.undeliver.None? then []
    else [db.(missions := p.db.missions)] + if p.ok then [p.db] else []
  }

  /** The mission, and the route if a next mission was found. */
  function LeavingCommits(db: Db, rid: Id, route: Route, m: Id, now: Instant): seq<Db>
    requires m in db.missions && rid in db.routes
  {
    var p := OnStartNext(db, rid, route, m, now);
    var written := db.(missions := p.db.missions);
    var next := NextByPosition(written.missions, rid, PositionAfter(Completed(db.missions[m], TimeOf(now))));
    [written]
    + if MissionReadable(Completed(db.missions[m], TimeOf(now))) && next.One? && next.id in written.missions
         && MissionReadable(written.missions[next.id])
      then [p.db] else []
  }

  /** The open mission, if any, and the courier's reset with the cleared list. */
  ghost function FinishCommits(db: Db, rid: Id, route: Route, courier: Id, now: Instant): seq<Db> {
    var p := OnFinish(db, rid, route, courier, now);
    (if Unfinished(db, route.currentMission) then [db.(missions := p.db.missions)] else [])
    + if p.ok then [p.db] else []
  }

  /** What a handler commits, in order; what it leaves pending is committed with the route. */
  ghost function HandlerCommits(db: Db, dir: Directory, user: Id, courier: Id, rq: Request, now: Instant): seq<Db>
    requires RouteAssigned(db, rq.route, courier)
    requires NeedsOrder(rq.step) ==> MissionGiven(db, rq)
  {
    var route := db.routes[rq.route];
    if NeedsOrder(rq.step) then
      var o := rq.order.value;
      var m := MissionOn(db.missions, o, rq.route).id;
      match rq.step
      case ArrivedAtDelivery => ArrivalCommits(db, route, m, o, now)
      case Delivered => DeliveryCommits(db, dir, user, courier, route, m, o, rq.comment, now)
      case Undelivered => FailureCommits(db, route, m, o, rq, now)
      case StartNextDelivery => LeavingCommits(db, rq.route, route, m, now)
      case ReturnToHub => [OnReturn(db, route, m, now).db]
      case _ => []
    else if rq.step.FinishRoute? then FinishCommits(db, rq.route, route, courier, now)
    else []
  }

  function ConcludeCommits(p: Progress, rid: Id, courier: Id, step: CourierStep): seq<Db> {
    if !p.ok || rid !in p.db.routes then []
    else
      var db1 := p.db.(routes := p.db.routes[rid := OverwriteRoute(p.db.routes[rid], p.route)]);
      [db1] + if RouteReadable(db1.routes[rid]) then [Conclude(p, rid, courier, step).db] else []
  }

  /** Every state a courier request commits, in order. */
  ghost function CourierCommits(db: Db, dir: Directory, user: Id, rq: Request, now: Instant): seq<Db> {
    if user !in dir.courierOf then []
    else
      var courier := dir.courierOf[user];
      var db1 := WithCourier(db, courier, rq);
      (if courier in db.couriers then [] else [db1])
      + if !RouteAssigned(db1, rq.route, courier) || (NeedsOrder(rq.step) && !MissionGiven(db1, rq)) then []
        else
          HandlerCommits(db1, dir, user, courier, rq, now)
          + ConcludeCommits(Process(db1, dir, user, courier, rq, now), rq.route, courier, rq.step)
  }

  /** Where an interruption can leave the tables: before the first commit of a request, or after any of them. */
  ghost predicate DuringCourier(db: Db, dir: Directory, user: Id, rq: Request, now: Instant, mid: Db) {
    mid == db || mid in CourierCommits(db, dir, user, rq, now)
  }

  // ---------------------------------------------------------------- loading

  function OrderByBarcode(orders: map<Id, Order>, barcode: string): Lookup {
    Sole(set o | o in orders && orders[o].barcode == barcode)
  }

  function Unscanned(missions: map<Id, Mission>, route: Id): set<Id> {
    set m | m in missions && missions[m].routeId == route && missions[m].loadingScan.None?
  }

  /** Scanning a barcode succeeds: the route exists, the order is not cancelled and has a mission on the route. */
  predicate CanScan(db: Db, rid: Id, barcode: string) {
    var o := OrderByBarcode(db.orders, barcode);
    && rid in db.routes && RouteReadable(db.routes[rid])
    && o.One? && o.id in db.orders && db.orders[o.id].status != OrderStatus.Cancelled
    && var m := MissionOn(db.missions, o.id, rid);
    m.One? && m.id in db.missions && MissionReadable(db.missions[m.id])
  }

  function Scan(db: Db, rid: Id, barcode: string, now: Instant): Result {
    if !CanScan(db, rid, barcode) then Raised(db)
    else
      var m := MissionOn(db.missions, OrderByBarcode(db.orders, barcode).id, rid).id;
      Done(db.(missions := db.missions[m := db.missions[m].(loadingScan := Some(now))]))
  }

  /** Scanning barcode after barcode, up to the first one that fails. */
  function ScanAll(db: Db, rid: Id, barcodes: seq<string>, now: Instant): Result
    decreases |barcodes|
  {
    if barcodes == [] then Done(db)
    else
      var first := Scan(db, rid, barcodes[0], now);
      if first.Done? then ScanAll(first.db, rid, barcodes[1..], now) else first
  }

  /** Every state the scans commit, one for each that succeeds. */
  function ScanCommits(db: Db, rid: Id, barcodes: seq<string>, now: Instant): seq<Db>
    decreases |barcodes|
  {
    if barcodes == [] || Scan(db, rid, barcodes[0], now).Raised? then []
    else
      var first := Scan(db, rid, barcodes[0], now).db;
      [first] + ScanCommits(first, rid, barcodes[1..], now)
  }

  function BarcodesOf(orders: map<Id, Order>, rows: seq<Id>): seq<string>
    requires forall o <- rows :: o in orders
  {
    seq(|rows|, i requires 0 <= i < |rows| => orders[rows[i]].barcode)
  }

  /** Loads every fetched order and starts the route with the first requested one. */
  ghost function SelfManaged(db: Db, dir: Directory, user: Id, rid: Id, requested: seq<Id>,
                             barcodes: seq<string>, now: Instant): Result
  {
    var loaded := ScanAll(db, rid, barcodes, now);
    if loaded.Raised? || requested == [] then loaded
    else SetState(loaded.db, dir, user, Request(CourierStep.StartRoute, rid, Some(requested[0]), None, None), now)
  }

  ghost function SelfManagedCommits(db: Db, dir: Directory, user: Id, rid: Id, requested: seq<Id>,
                                    barcodes: seq<string>, now: Instant): seq<Db>
  {
    var loaded := ScanAll(db, rid, barcodes, now);
    ScanCommits(db, rid, barcodes, now)
    + if loaded.Raised? || requested == [] then []
      else
        CourierCommits(loaded.db, dir, user, Request(CourierStep.StartRoute, rid, Some(requested[0]), None, None), now)
  }
}
